/** The replay file: the settings of a run saved, loaded and applied again
    (save_config, apply_config and the option handling of main in src/main.c, src/config.c). */
module Replay {
  import opened Wrappers
  import opened Numbers
  import opened Numerals
  import opened ConfigText
  import opened ConfigPrint
  import opened ConfigLoad

  // ----- integers as text -----

  const EXACT: int := 0x20_0000_0000_0000

  function Unsigned(s: string): string {
    if s != "" && (s[0] == '-' || s[0] == '+') then s[1..] else s
  }

  /** The multiplier of a size suffix. */
  function Multiplier(c: char): Option<nat> {
    if c == 'K' || c == 'k' then Some(1024)
    else if c == 'M' || c == 'm' then Some(1024 * 1024)
    else if c == 'G' || c == 'g' then Some(1024 * 1024 * 1024)
    else if c == 'T' || c == 't' then Some(1024 * 1024 * 1024 * 1024)
    else None
  }

  function SuffixMultiplier(rest: string): Option<nat> {
    if rest == "" then Some(1) else Multiplier(rest[0])
  }

  function Magnitude(s: string): nat {
    DigitsValue(Unsigned(s)[..DigitRun(Unsigned(s))])
  }

  function SizeTail(s: string): string { Unsigned(s)[DigitRun(Unsigned(s))..] }

  /** The number formatting and scanning of the C library; scanning also gives the unread rest. */
  datatype Libc = Libc(format: real -> string, strtod: string -> (real, string))

  /** A decimal integer with no fraction, exponent or base prefix, small enough to be held exactly. */
  predicate PlainNumber(s: string) {
    && DigitRun(Unsigned(s)) > 0 && Magnitude(s) <= EXACT
    && (SizeTail(s) == "" || SizeTail(s)[0] !in ".eExX")
  }

  /** Scanning: exact on plain integers, the library's answer on any other text. */
  function Strtod(s: string, c: Libc): (real, string) {
    if PlainNumber(s) then (if s[0] == '-' then -(Magnitude(s) as real) else Magnitude(s) as real, SizeTail(s))
    else c.strtod(s)
  }

  function Atof(s: string, c: Libc): real { Strtod(s, c).0 }

  /** The cast of a double to an integer, which drops the fraction. */
  function Trunc(x: real): int { if x >= 0.0 then x.Floor else -((-x).Floor) }

  function ParseSize(s: string, dflt: int, c: Libc): int {
    if s == "" then dflt
    else
      var (v, rest) := Strtod(s, c);
      Scale(v, rest, dflt)
  }

  /** A scanned number by the suffix that follows it. */
  function Scale(v: real, rest: string, dflt: int): int {
    match SuffixMultiplier(TrimLeft(rest))
    case None => dflt
    case Some(mult) => Trunc(v * (mult as real))
  }

  /** An integer of at most 2^53 in magnitude is read back exactly. */
  lemma {:induction false} DecimalBack(n: int, dflt: int, c: Libc)
    requires -EXACT <= n <= EXACT
    ensures ParseSize(Decimal(n), dflt, c) == n
  {
    var m := if n < 0 then -n else n;
    DigitsBack(m);
    var s := Decimal(n);
    assert IsDigit(Digits(m)[0]);
    assert n < 0 ==> s[1..] == Digits(m);
    assert Unsigned(s) == Digits(m);
    DigitRunAll(Digits(m));
    assert Digits(m)[..|Digits(m)|] == Digits(m);
    assert SizeTail(s) == "";
    assert Magnitude(s) == m;
    assert Strtod(s, c) == (n as real, "");
    assert (n as real) * (1 as real) == n as real;
  }

  /** 1024^e */
  function Kilo(e: nat): nat { if e == 0 then 1 else 1024 * Kilo(e - 1) }

  /** What the size suffixes stand for. */
  predicate SuffixOf(ch: char, e: nat) {
    || (e == 1 && ch in {'K', 'k'}) || (e == 2 && ch in {'M', 'm'})
    || (e == 3 && ch in {'G', 'g'}) || (e == 4 && ch in {'T', 't'})
  }

  lemma {:induction false} TrimLeftSkips(pad: string, t: string)
    requires AllSpace(pad, 0, |pad|) && t != "" && !IsSpace(t[0])
    ensures TrimLeft(pad + t) == t
  {
    if pad == "" {
      NothingPlus(t);
    } else {
      assert (pad + t)[1..] == pad[1..] + t;
      TrimLeftSkips(pad[1..], t);
    }
  }

  /** Scanning an integer with something after it that does not continue a number. */
  lemma {:induction false} ScanInteger(n: int, tail: string, c: Libc)
    requires -EXACT <= n <= EXACT && tail != "" && !IsDigit(tail[0]) && tail[0] !in ".eExX"
    ensures Strtod(Decimal(n) + tail, c) == (n as real, tail)
  {
    var m := if n < 0 then -n else n;
    DigitsBack(m);
    var s := Decimal(n) + tail;
    assert IsDigit(Digits(m)[0]);
    assert n < 0 ==> s[1..] == Digits(m) + tail;
    assert Unsigned(s) == Digits(m) + tail;
    DigitRunStops(Digits(m), tail);
    assert (Digits(m) + tail)[..|Digits(m)|] == Digits(m);
    assert SizeTail(s) == tail && Magnitude(s) == m;
  }

  lemma {:induction false} SuffixIs(ch: char, more: string, e: nat)
    requires SuffixOf(ch, e)
    ensures SuffixMultiplier([ch] + more) == Some(Kilo(e))
  {
    assert Kilo(1) == 1024;
    assert Kilo(2) == 1024 * 1024;
    assert Kilo(3) == 1024 * 1024 * 1024;
    assert Kilo(4) == 1024 * 1024 * 1024 * 1024;
  }

  lemma {:induction false} Product(n: int, m: nat)
    ensures Trunc((n as real) * (m as real)) == n * m
  {
    assert (n as real) * (m as real) == (n * m) as real;
  }

  lemma {:induction false} ScaleInteger(n: int, pad: string, rest: string, dflt: int)
    requires AllSpace(pad, 0, |pad|) && rest != "" && !IsSpace(rest[0])
    ensures Scale(n as real, pad + rest, dflt) == match SuffixMultiplier(rest) case None => dflt case Some(m) => n * m
  {
    TrimLeftSkips(pad, rest);
    if SuffixMultiplier(rest).Some? { Product(n, SuffixMultiplier(rest).value); }
  }

  /** A scanned integer, blanks and something else. */
  lemma {:induction false} SizeFrom(n: int, pad: string, rest: string, dflt: int, c: Libc)
    requires -EXACT <= n <= EXACT && AllSpace(pad, 0, |pad|) && rest != "" && !IsSpace(rest[0])
    requires pad == "" ==> !IsDigit(rest[0]) && rest[0] !in ".eExX"
    ensures ParseSize(Decimal(n) + (pad + rest), dflt, c) == Scale(n as real, pad + rest, dflt)
  {
    var tail := pad + rest;
    assert tail[0] == if pad == "" then rest[0] else pad[0];
    ScanInteger(n, tail, c);
  }

  /** An integer, blanks, a suffix and anything after it: the integer times a power of 1024. */
  lemma {:induction false} SizeWithSuffix(n: int, pad: string, ch: char, more: string, e: nat, dflt: int, c: Libc)
    requires -EXACT <= n <= EXACT && AllSpace(pad, 0, |pad|) && SuffixOf(ch, e)
    ensures ParseSize(Decimal(n) + (pad + ([ch] + more)), dflt, c) == n * Kilo(e)
  {
    var rest := [ch] + more;
    assert rest[0] == ch;
    SizeFrom(n, pad, rest, dflt, c);
    ScaleInteger(n, pad, rest, dflt);
    SuffixIs(ch, more, e);
  }

  /** With anything else after it the default is taken. */
  lemma {:induction false} SizeWithOther(n: int, pad: string, ch: char, more: string, dflt: int, c: Libc)
    requires -EXACT <= n <= EXACT && AllSpace(pad, 0, |pad|) && !IsSpace(ch) && ch !in "KkMmGgTt"
    requires pad == "" ==> !IsDigit(ch) && ch !in ".eExX"
    ensures ParseSize(Decimal(n) + (pad + ([ch] + more)), dflt, c) == dflt
  {
    var rest := [ch] + more;
    assert rest[0] == ch;
    SizeFrom(n, pad, rest, dflt, c);
    ScaleInteger(n, pad, rest, dflt);
  }

  // ----- settings -----

  datatype Target = Console | Spec(spec: string) | Dir(dir: string)

  /** What the replay file can carry; a missing backend or thread list stands for the default. */
  datatype Settings = Settings(
    backend: Option<string>, threads: Option<string>, seedThreads: int, seedOnce: int, pin: int,
    secs: real, ops: int, users: int, items: int, seed: int, repeat: int,
    dataDir: Option<string>, target: Target, workloads: seq<string>)

  function Int32(x: int): int { (x + 0x8000_0000) % 0x1_0000_0000 - 0x8000_0000 }
  function UInt32(x: int): int { x % 0x1_0000_0000 }

  /** A cast keeps the value when the type holds it, and otherwise changes it by a multiple of 2^32. */
  lemma {:induction false} CastsAre(x: int)
    ensures -0x8000_0000 <= Int32(x) < 0x8000_0000 && (x - Int32(x)) % 0x1_0000_0000 == 0
    ensures 0 <= UInt32(x) < 0x1_0000_0000 && (x - UInt32(x)) % 0x1_0000_0000 == 0
  {
  }

  /** The cast of a double rounds toward zero. */
  lemma {:induction false} TruncIs(x: real)
    ensures x >= 0.0 ==> Trunc(x) as real <= x < Trunc(x) as real + 1.0
    ensures x < 0.0 ==> Trunc(x) as real - 1.0 < x <= Trunc(x) as real
  {
  }

  /** The settings before the command line and the file are looked at. */
  const DEFAULTS: Settings := Settings(None, None, 0, 0, 0, 0.0, 200000, 100000, 100000, 1, 1, None, Console, [])

  // ----- saving -----

  datatype Field = Field(key: string, pad: string, val: Option<string>)

  function When(b: bool, v: string): Option<string> { if b then Some(v) else None }

  function Default(o: Option<string>, dflt: string): string { if o.Some? then o.value else dflt }

  function NonEmpty(o: Option<string>): Option<string> { if o == Some("") then None else o }

  /** The bench section in the order it is written; engine is the default engine's name. */
  function Fields(s: Settings, engine: string, c: Libc): seq<Field> {
    [ Field("backend", " ", Some(Default(s.backend, engine))),
      Field("threads", " ", Some(Default(s.threads, "1"))),
      Field("seed_threads", " ", When(s.seedThreads > 0, Decimal(s.seedThreads))),
      Field("seed_once", " ", When(s.seedOnce != 0, "1")),
      Field("pin", " ", When(s.pin != 0, "1")),
      Field("secs", " ", When(s.secs > 0.0, c.format(s.secs))),
      Field("ops", "  ", When(!(s.secs > 0.0), Decimal(s.ops))),
      Field("users", "  ", Some(Decimal(s.users))),
      Field("items", "  ", Some(Decimal(s.items))),
      Field("seed", "   ", Some(Decimal(s.seed))),
      Field("repeat", " ", Some(Decimal(s.repeat))),
      Field("data_dir", " ", NonEmpty(s.dataDir)),
      Field("report_dir", " ", if s.target.Dir? then Some(s.target.dir) else None),
      Field("report", " ", if s.target.Spec? then Some(s.target.spec) else None) ]
  }

  function WorkloadFields(files: seq<string>): (r: seq<Field>)
    ensures |r| == |files|
  {
    if files == [] then [] else [Field("workload", " ", Some(files[0]))] + WorkloadFields(files[1..])
  }

  /** All fields in the order they are written. */
  function AllFields(s: Settings, engine: string, c: Libc): (r: seq<Field>)
    ensures |r| == 14 + |s.workloads|
  {
    Fields(s, engine, c) + WorkloadFields(s.workloads)
  }

  function PrintField(f: Field): string {
    if f.val.None? then "" else PrintEntry(f.key, f.pad, f.val.value)
  }

  function PrintFields(fs: seq<Field>): string {
    if fs == [] then "" else PrintField(fs[0]) + PrintFields(fs[1..])
  }

  function Banner(version: string, path: string): string {
    "keybench " + version + " replay file" + " - reproduce" + " with:  " + "keybench " + "--config " + path + "\n"
  }

  function SaveText(s: Settings, engine: string, c: Libc, version: string, path: string, conf: seq<Section>): string {
    Banner(version, path) + ("\n" + (PrintHeader("bench") + (PrintFields(AllFields(s, engine, c)) + PrintSections(Others(conf)))))
  }

  // ----- reading the fields back -----

  predicate Word(k: string) {
    forall i :: 0 <= i < |k| ==> 'a' <= k[i] <= 'z' || k[i] == '_'
  }

  predicate Shaped(f: Field) { Word(f.key) && |f.key| <= 12 && Pad(f.pad) && |f.pad| <= 3 }

  /** A value that its printed line gives back. */
  predicate Intact(key: string, pad: string, v: string) {
    ValueText(v) && (v == "" || |key| + |pad| + 2 + |v| <= LINE_MAX)
  }

  predicate FieldOk(f: Field) {
    f.val.Some? ==> Intact(f.key, f.pad, f.val.value)
  }

  function PairsOf(fs: seq<Field>): seq<Pair> {
    if fs == [] then []
    else PairOf(fs[0]) + PairsOf(fs[1..])
  }

  lemma {:induction false} WordKey(k: string)
    requires Word(k)
    ensures KeyOk(k)
  {
  }

  /** What a field's line gives back under its key. */
  function ReadValue(f: Field): string
    requires Shaped(f) && f.val.Some?
  {
    WordKey(f.key);
    ValueBackIff(f.key, f.pad, f.val.value);
    FirstLine(f.key, f.pad, f.val.value).val
  }

  lemma {:induction false} FieldLine(f: Field)
    requires Shaped(f) && f.val.Some?
    ensures FirstLine(f.key, f.pad, f.val.value) == Entry(f.key, ReadValue(f))
    ensures ReadValue(f) == f.val.value <==> FieldOk(f)
  {
    WordKey(f.key);
    ValueBackIff(f.key, f.pad, f.val.value);
  }

  /** What is left of an intact field's line is at most its newline. */
  lemma {:induction false} FieldLeft(c: Config, f: Field, rest: string)
    requires Open(c) && Shaped(f) && f.val.Some? && FieldOk(f)
    ensures var l := PrintField(f); ReadText(c, l[ChunkLen(l)..] + rest) == ReadText(c, rest)
  {
    var l := PrintField(f);
    WordKey(f.key);
    EntryUncut(f.key, f.pad, f.val.value);
    WholeChunk(l);
    var left := l[ChunkLen(l)..];
    if left == "" {
      NothingPlus(rest);
    } else {
      assert left == "\n";
      BlankLine(left);
      ReadWhole(c, left, rest);
    }
  }

  lemma {:induction false} ReadField(c: Config, f: Field, rest: string)
    requires Open(c) && Shaped(f) && FieldOk(f)
    ensures ReadText(c, PrintField(f) + rest) == ReadText(if f.val.Some? then Add(c, f.key, f.val.value) else c, rest)
  {
    if f.val.Some? {
      FieldLine(f);
      ReadFirst(c, PrintField(f), rest);
      FieldLeft(Add(c, f.key, f.val.value), f, rest);
    } else {
      NothingPlus(rest);
    }
  }

  /** A field that is not intact leaves another value under its key, for good. */
  lemma {:induction false} ReadBadField(c: Config, f: Field, rest: string)
    requires Open(c) && Shaped(f) && !FieldOk(f)
    ensures ReadValue(f) != f.val.value
    ensures Grows(Add(c, f.key, ReadValue(f)), ReadText(c, PrintField(f) + rest))
  {
    var l := PrintField(f);
    FieldLine(f);
    ReadFirst(c, l, rest);
    ReadGrows(Add(c, f.key, ReadValue(f)), l[ChunkLen(l)..] + rest);
  }

  function PairOf(f: Field): seq<Pair> { if f.val.Some? then [Pair(f.key, f.val.value)] else [] }

  lemma {:induction false} FieldsText(fs: seq<Field>, rest: string, acc: seq<Pair>)
    ensures PrintFields(fs) + rest == if fs == [] then rest else PrintField(fs[0]) + (PrintFields(fs[1..]) + rest)
    ensures acc + PairsOf(fs) == if fs == [] then acc else acc + PairOf(fs[0]) + PairsOf(fs[1..])
  {
  }

  lemma {:induction false} ReadOneField(acc: seq<Pair>, f: Field, rest: string)
    requires Shaped(f) && FieldOk(f)
    ensures ReadText(Building([], "bench", acc), PrintField(f) + rest) == ReadText(Building([], "bench", acc + PairOf(f)), rest)
  {
    ReadField(Building([], "bench", acc), f, rest);
    if f.val.Some? {
      AddBuilding([], "bench", acc, Pair(f.key, f.val.value));
    } else {
      assert acc + PairOf(f) == acc;
    }
  }

  lemma {:induction false} ReadFields(acc: seq<Pair>, fs: seq<Field>, rest: string)
    requires forall i :: 0 <= i < |fs| ==> Shaped(fs[i]) && FieldOk(fs[i])
    ensures ReadText(Building([], "bench", acc), PrintFields(fs) + rest) == ReadText(Building([], "bench", acc + PairsOf(fs)), rest)
    decreases |fs|
  {
    FieldsText(fs, rest, acc);
    if fs != [] {
      ReadOneField(acc, fs[0], PrintFields(fs[1..]) + rest);
      ReadFields(acc + PairOf(fs[0]), fs[1..], rest);
    }
  }

  /** The entries of the fields before i, then what the line of field i is read as. */
  function PairsUpTo(fs: seq<Field>, i: nat): seq<Pair>
    requires i < |fs| && Shaped(fs[i]) && fs[i].val.Some?
  {
    PairsOf(fs[..i]) + [Pair(fs[i].key, ReadValue(fs[i]))]
  }

  lemma {:induction false} Cuts<T>(s: seq<T>, i: nat)
    requires 0 < i < |s|
    ensures s[..i][0] == s[0] && s[..i][1..] == s[1..][..i - 1] && s[1..][i - 1] == s[i] && s[1..][i..] == s[i + 1..]
  {
  }

  lemma {:induction false} FieldsSplit(fs: seq<Field>, i: nat, rest: string)
    requires i < |fs|
    ensures PrintFields(fs) + rest == PrintFields(fs[..i]) + (PrintField(fs[i]) + (PrintFields(fs[i + 1..]) + rest))
  {
    var tail := PrintField(fs[i]) + (PrintFields(fs[i + 1..]) + rest);
    FieldsText(fs, rest, []);
    FieldsText(fs[..i], tail, []);
    if i > 0 {
      Cuts(fs, i);
      FieldsSplit(fs[1..], i - 1, rest);
    }
  }

  /** The first field that is not intact is read wrong, and what follows only appends to that. */
  lemma {:induction false} ReadBadFields(acc: seq<Pair>, fs: seq<Field>, rest: string, i: nat)
    requires i < |fs| && !FieldOk(fs[i]) && (forall k :: 0 <= k < i ==> FieldOk(fs[k]))
    requires forall k :: 0 <= k < |fs| ==> Shaped(fs[k])
    ensures Grows(Building([], "bench", acc + PairsUpTo(fs, i)), ReadText(Building([], "bench", acc), PrintFields(fs) + rest))
  {
    var more := PrintFields(fs[i + 1..]) + rest;
    FieldsSplit(fs, i, rest);
    ReadFields(acc, fs[..i], PrintField(fs[i]) + more);
    ReadWrongField(acc + PairsOf(fs[..i]), fs[i], more);
    assert acc + PairsOf(fs[..i]) + [Pair(fs[i].key, ReadValue(fs[i]))] == acc + PairsUpTo(fs, i);
  }

  lemma {:induction false} ReadWrongField(acc: seq<Pair>, f: Field, rest: string)
    requires Shaped(f) && !FieldOk(f)
    ensures Grows(Building([], "bench", acc + [Pair(f.key, ReadValue(f))]), ReadText(Building([], "bench", acc), PrintField(f) + rest))
  {
    ReadBadField(Building([], "bench", acc), f, rest);
    AddBuilding([], "bench", acc, Pair(f.key, ReadValue(f)));
  }

  /** A line starting with k is no section, and if it is an entry its key starts with k. */
  lemma {:induction false} BannerLine(raw: string)
    requires raw != "" && raw[0] == 'k'
    ensures ParseLine(raw).Nothing? || (ParseLine(raw).Entry? && ParseLine(raw).key != "" && ParseLine(raw).key[0] == 'k')
  {
    var cut := CutComment(CStr(raw));
    assert CStr(raw) != "" && CStr(raw)[0] == 'k';
    assert !CommentStart(CStr(raw), 0);
    assert cut != "" && cut[0] == 'k';
    var i, j := TrimParts(cut);
    var t := Trim(cut);
    assert i == 0 && t != "" && t[0] == 'k';
    var q := Find(t, '=');
    if q < |t| {
      var left := t[..q];
      assert left != "" && left[0] == 'k';
      var a, b := TrimParts(left);
      assert a == 0;
    }
  }

  /** Entries the banner line can leave: none of the program's keys starts with k. */
  predicate Junk(kv: seq<Pair>) {
    forall i :: 0 <= i < |kv| ==> kv[i].key != "" && kv[i].key[0] == 'k'
  }

  lemma {:induction false} BannerWhole(version: string, path: string)
    requires Plain(version) && Plain(path)
    ensures WholeLine(Banner(version, path))
  {
    var l := Banner(version, path);
    var a, b, c, d, e := "keybench ", " replay file", " - reproduce", " with:  ", "--config ";
    assert '\n' !in a && '\n' !in b && '\n' !in c && '\n' !in d && '\n' !in e;
    var body := a + version + b + c + d + a + e + path;
    assert '\n' !in body;
    assert l == body + "\n";
    assert forall i :: 0 <= i < |l| - 1 ==> l[i] == body[i];
  }

  lemma {:induction false} ReadBanner(version: string, path: string, rest: string) returns (junk: seq<Pair>)
    requires Plain(version) && Plain(path) && |Banner(version, path)| <= LINE_MAX
    ensures Junk(junk) && ReadText(EMPTY, Banner(version, path) + rest) == ReadText(Building([], "bench", junk), rest)
  {
    var l, start := Banner(version, path), EMPTY;
    BannerWhole(version, path);
    ReadWhole(start, l, rest);
    assert l[0] == 'k';
    BannerLine(l);
    assert start == Building([], "bench", []);
    if ParseLine(l).Entry? {
      var p := Pair(ParseLine(l).key, ParseLine(l).val);
      AddBuilding([], "bench", [], p);
      junk := [] + [p];
    } else {
      junk := [];
    }
  }

  lemma {:induction false} ReadBenchHeader(junk: seq<Pair>, rest: string)
    ensures ReadText(Building([], "bench", junk), "\n" + (PrintHeader("bench") + rest)) == ReadText(Building([], "bench", junk), rest)
  {
    var n := "bench";
    assert Trimmed(n) && NameOk(n);
    ReadHeader(Building([], "bench", junk), n, rest);
    TrimOfTrimmed(n);
  }

  // ----- looking the fields up -----

  ghost predicate DistinctKeys(fs: seq<Field>) {
    forall i, j :: 0 <= i < j < |fs| ==> fs[i].key != fs[j].key
  }

  lemma {:induction false} NoField(fs: seq<Field>, key: string)
    requires forall i :: 0 <= i < |fs| ==> fs[i].key != key
    ensures OptStr(PairsOf(fs), key) == None && OptAll(PairsOf(fs), key) == []
  {
    if fs != [] {
      NoField(fs[1..], key);
      LookupAppend(PairOf(fs[0]), PairsOf(fs[1..]), key);
      OneEntry(fs[0], key);
    }
  }

  lemma {:induction false} OneEntry(f: Field, key: string)
    ensures var one := PairOf(f);
            OptStr(one, key) == (if f.key == key then f.val else None)
            && (f.key != key ==> OptAll(one, key) == [])
            && (f.key == key && f.val.Some? ==> OptAll(one, key) == [f.val.value])
  {
    if f.val.Some? {
      var one := [Pair(f.key, f.val.value)];
      assert one[1..] == [];
    }
  }

  lemma {:induction false} FieldLookup(fs: seq<Field>, i: nat)
    requires i < |fs| && DistinctKeys(fs)
    ensures OptStr(PairsOf(fs), fs[i].key) == fs[i].val
  {
    var key := fs[i].key;
    LookupAppend(PairOf(fs[0]), PairsOf(fs[1..]), key);
    OneEntry(fs[0], key);
    if i == 0 {
      NoField(fs[1..], key);
    } else {
      FieldLookup(fs[1..], i - 1);
    }
  }

  lemma {:induction false} JunkHidesNothing(junk: seq<Pair>, kv: seq<Pair>, key: string)
    requires Junk(junk) && (key == "" || key[0] != 'k')
    ensures OptStr(junk + kv, key) == OptStr(kv, key) && OptAll(junk + kv, key) == OptAll(kv, key)
  {
    if junk == [] {
      assert junk + kv == kv;
    } else {
      assert (junk + kv)[1..] == junk[1..] + kv;
      JunkHidesNothing(junk[1..], kv, key);
    }
  }

  lemma {:induction false} WorkloadsBack(files: seq<string>)
    ensures OptAll(PairsOf(WorkloadFields(files)), "workload") == files
    ensures forall i :: 0 <= i < |WorkloadFields(files)| ==> WorkloadFields(files)[i].key == "workload"
  {
    if files != [] {
      var f := Field("workload", " ", Some(files[0]));
      WorkloadsBack(files[1..]);
      assert WorkloadFields(files)[1..] == WorkloadFields(files[1..]);
      LookupAppend([Pair("workload", files[0])], PairsOf(WorkloadFields(files[1..])), "workload");
      OneEntry(f, "workload");
    }
  }

  lemma {:induction false} PairsOfAppend(a: seq<Field>, b: seq<Field>)
    ensures PairsOf(a + b) == PairsOf(a) + PairsOf(b)
  {
    if a == [] {
      assert a + b == b;
    } else {
      assert (a + b)[1..] == a[1..] + b;
      PairsOfAppend(a[1..], b);
    }
  }

  // ----- applying -----

  function OptInt(kv: seq<Pair>, key: string, dflt: int, c: Libc): int {
    if OptStr(kv, key).None? then dflt else ParseSize(OptStr(kv, key).value, dflt, c)
  }

  function Or(a: Option<string>, b: Option<string>): Option<string> { if a.Some? then a else b }

  const MAX_FILES: nat := 64

  /** What apply_config finds in the bench section, with the settings before as defaults. */
  datatype Found = Found(
    backend: Option<string>, threads: Option<string>, secs: Option<string>, dataDir: Option<string>,
    reportDir: Option<string>, report: Option<string>, ops: int, users: int, items: int, seed: int,
    seedThreads: int, seedOnce: int, pin: int, repeat: int, workloads: seq<string>)

  function Lookups(s: Settings, kv: seq<Pair>, c: Libc): Found {
    Found(OptStr(kv, "backend"), OptStr(kv, "threads"), OptStr(kv, "secs"), OptStr(kv, "data_dir"),
          OptStr(kv, "report_dir"), OptStr(kv, "report"), OptInt(kv, "ops", s.ops, c), OptInt(kv, "users", s.users, c),
          OptInt(kv, "items", s.items, c), OptInt(kv, "seed", s.seed, c), OptInt(kv, "seed_threads", s.seedThreads, c),
          OptInt(kv, "seed_once", s.seedOnce, c), OptInt(kv, "pin", s.pin, c), OptInt(kv, "repeat", s.repeat, c),
          OptAll(kv, "workload"))
  }

  /** The settings once what was found is assigned and the options are completed. */
  function Complete(s: Settings, f: Found, c: Libc): Settings {
    var secs := if f.secs.Some? then Atof(f.secs.value, c) else s.secs;
    var repeat := Int32(f.repeat);
    Settings(
      Or(f.backend, s.backend), Or(f.threads, s.threads),
      Int32(f.seedThreads), Int32(f.seedOnce), Int32(f.pin),
      secs, if secs > 0.0 then 0 else f.ops, f.users, f.items, UInt32(f.seed),
      if repeat < 1 then 1 else repeat,
      Or(f.dataDir, s.dataDir),
      if f.reportDir.Some? then Dir(f.reportDir.value) else if f.report.Some? then Spec(f.report.value) else s.target,
      if |f.workloads| <= MAX_FILES then f.workloads else f.workloads[..MAX_FILES])
  }

  function Applied(s: Settings, kv: seq<Pair>, c: Libc): Settings {
    Complete(s, Lookups(s, kv, c), c)
  }

  // ----- what can be saved -----

  predicate Exact(n: int) { -EXACT <= n <= EXACT }

  /** Integers a double and the C types hold, a duration the library writes as one word on a line, and
      no more workloads than the program takes. Nothing is asked of the texts. */
  predicate Saveable(s: Settings, c: Libc) {
    && |s.workloads| <= MAX_FILES
    && (if s.secs > 0.0 then Intact("secs", " ", c.format(s.secs)) else Exact(s.ops))
    && Exact(s.users) && Exact(s.items)
    && 0 <= s.seed < 0x1_0000_0000 && s.seedThreads < 0x8000_0000 && 1 <= s.repeat < 0x8000_0000
  }

  /** The texts among the settings are such that their lines give them back. */
  predicate TextsIntact(s: Settings, engine: string) {
    && Intact("backend", " ", Default(s.backend, engine))
    && Intact("threads", " ", Default(s.threads, "1"))
    && (s.dataDir.Some? ==> Intact("data_dir", " ", s.dataDir.value))
    && (s.target.Dir? ==> Intact("report_dir", " ", s.target.dir))
    && (s.target.Spec? ==> Intact("report", " ", s.target.spec))
    && (forall i :: 0 <= i < |s.workloads| ==> Intact("workload", " ", s.workloads[i]))
  }

  /** The library's number format keeps the duration. */
  predicate SecsKept(s: Settings, c: Libc) {
    s.secs > 0.0 ==> Atof(c.format(s.secs), c) == s.secs
  }

  /** The settings the replay file stands for. */
  function Normal(s: Settings, engine: string): Settings {
    s.(backend := Some(Default(s.backend, engine)), threads := Some(Default(s.threads, "1")),
       seedThreads := if s.seedThreads > 0 then s.seedThreads else 0,
       seedOnce := if s.seedOnce != 0 then 1 else 0, pin := if s.pin != 0 then 1 else 0,
       secs := if s.secs > 0.0 then s.secs else 0.0, ops := if s.secs > 0.0 then 0 else s.ops,
       dataDir := NonEmpty(s.dataDir))
  }

  // ----- the fields are well formed -----

  lemma {:induction false} NumberText(s: string)
    requires forall i :: 0 <= i < |s| ==> IsDigit(s[i]) || s[i] == '-'
    ensures ValueText(s)
  {
  }

  lemma {:induction false} DecimalText(n: int)
    requires Exact(n)
    ensures ValueText(Decimal(n)) && |Decimal(n)| <= 17
  {
    var m := if n < 0 then -n else n;
    DigitsBack(m);
    TenValue();
    DigitsShort(m, 16, Ten(16));
    var s := Decimal(n);
    forall i | 0 <= i < |s| ensures IsDigit(s[i]) || s[i] == '-' {
      assert IsDigit(Digits(m)[if n < 0 && i > 0 then i - 1 else if n < 0 then 0 else i]);
    }
    NumberText(s);
  }

  lemma {:induction false} TenValue()
    ensures Ten(16) > EXACT
  {
    assert Ten(4) == 10000;
    assert Ten(8) == 10000 * Ten(4);
    assert Ten(12) == 10000 * Ten(8);
    assert Ten(16) == 10000 * Ten(12);
  }

  lemma {:induction false} ShortFieldOk(f: Field, v: string)
    requires Shaped(f) && (f.val.Some? ==> f.val.value == v && ValueText(v) && |v| <= 100)
    ensures FieldOk(f)
  {
  }

  lemma {:induction false} NumberFieldOk(f: Field, n: int)
    requires Shaped(f) && (f.val.Some? ==> Exact(n) && f.val.value == Decimal(n))
    ensures FieldOk(f)
  {
    if f.val.Some? { DecimalText(n); }
    ShortFieldOk(f, Decimal(n));
  }

  lemma {:induction false} FieldShape(s: Settings, engine: string, c: Libc, i: nat)
    requires i < |Fields(s, engine, c)|
    ensures Shaped(Fields(s, engine, c)[i])
  {
    var f := Fields(s, engine, c)[i];
    if i < 7 {
      assert |f.key| <= 12 && |f.pad| <= 3;
    } else {
      assert |f.key| <= 12 && |f.pad| <= 3;
    }
  }

  lemma {:induction false} FieldShapes(s: Settings, engine: string, c: Libc)
    ensures forall i :: 0 <= i < |Fields(s, engine, c)| ==> Shaped(Fields(s, engine, c)[i])
  {
    forall i | 0 <= i < |Fields(s, engine, c)| ensures Shaped(Fields(s, engine, c)[i]) {
      FieldShape(s, engine, c, i);
    }
  }

  lemma {:induction false} FlagFieldsOk(s: Settings, engine: string, c: Libc, fs: seq<Field>)
    requires Saveable(s, c) && fs == Fields(s, engine, c) && forall i :: 0 <= i < |fs| ==> Shaped(fs[i])
    ensures FieldOk(fs[3]) && FieldOk(fs[4]) && FieldOk(fs[5])
  {
    var one := "1";
    assert ValueText(one);
    ShortFieldOk(fs[3], one);
    ShortFieldOk(fs[4], one);
  }

  lemma {:induction false} CountFieldsOk(s: Settings, engine: string, c: Libc, fs: seq<Field>)
    requires Saveable(s, c) && fs == Fields(s, engine, c) && forall i :: 0 <= i < |fs| ==> Shaped(fs[i])
    ensures FieldOk(fs[6]) && FieldOk(fs[7]) && FieldOk(fs[8])
  {
    NumberFieldOk(fs[6], s.ops);
    NumberFieldOk(fs[7], s.users);
    NumberFieldOk(fs[8], s.items);
  }

  lemma {:induction false} NumberFieldsOk(s: Settings, engine: string, c: Libc, fs: seq<Field>)
    requires Saveable(s, c) && fs == Fields(s, engine, c) && forall i :: 0 <= i < |fs| ==> Shaped(fs[i])
    ensures FieldOk(fs[2]) && FieldOk(fs[9]) && FieldOk(fs[10])
  {
    NumberFieldOk(fs[2], s.seedThreads);
    NumberFieldOk(fs[9], s.seed);
    NumberFieldOk(fs[10], s.repeat);
  }

  lemma {:induction false} WorkloadAt(files: seq<string>)
    ensures forall i :: 0 <= i < |files| ==> WorkloadFields(files)[i] == Field("workload", " ", Some(files[i]))
  {
    if files != [] {
      WorkloadAt(files[1..]);
      assert forall i :: 0 < i < |files| ==> WorkloadFields(files)[i] == WorkloadFields(files[1..])[i - 1];
    }
  }

  lemma {:induction false} AllShaped(s: Settings, engine: string, c: Libc)
    ensures forall i :: 0 <= i < |AllFields(s, engine, c)| ==> Shaped(AllFields(s, engine, c)[i])
  {
    FieldShapes(s, engine, c);
    WorkloadAt(s.workloads);
    assert Word("workload");
  }

  /** Only a text can be in the way. */
  lemma {:induction false} OnlyTexts(s: Settings, engine: string, c: Libc, i: nat)
    requires Saveable(s, c) && i < |Fields(s, engine, c)| && !FieldOk(Fields(s, engine, c)[i])
    ensures i in {0, 1, 11, 12, 13}
  {
    var fs := Fields(s, engine, c);
    FieldShapes(s, engine, c);
    FlagFieldsOk(s, engine, c, fs);
    CountFieldsOk(s, engine, c, fs);
    NumberFieldsOk(s, engine, c, fs);
  }

  /** The keys and values of the text fields. */
  lemma {:induction false} TextFields(s: Settings, engine: string, c: Libc)
    ensures Fields(s, engine, c)[0] == Field("backend", " ", Some(Default(s.backend, engine)))
    ensures Fields(s, engine, c)[1] == Field("threads", " ", Some(Default(s.threads, "1")))
    ensures Fields(s, engine, c)[11] == Field("data_dir", " ", NonEmpty(s.dataDir))
    ensures Fields(s, engine, c)[12] == Field("report_dir", " ", if s.target.Dir? then Some(s.target.dir) else None)
    ensures Fields(s, engine, c)[13] == Field("report", " ", if s.target.Spec? then Some(s.target.spec) else None)
  {
  }

  lemma {:induction false} IntactFields(s: Settings, engine: string, c: Libc, i: nat)
    requires Saveable(s, c) && TextsIntact(s, engine) && i < |AllFields(s, engine, c)|
    ensures FieldOk(AllFields(s, engine, c)[i])
  {
    if i >= 14 {
      WorkloadAt(s.workloads);
    } else if !FieldOk(Fields(s, engine, c)[i]) {
      OnlyTexts(s, engine, c, i);
      TextFields(s, engine, c);
    }
  }

  lemma {:induction false} IntactTexts(s: Settings, engine: string, c: Libc)
    requires forall i :: 0 <= i < |AllFields(s, engine, c)| ==> FieldOk(AllFields(s, engine, c)[i])
    ensures TextsIntact(s, engine)
  {
    var all := AllFields(s, engine, c);
    assert FieldOk(all[0]) && FieldOk(all[1]) && FieldOk(all[11]) && FieldOk(all[12]) && FieldOk(all[13]);
    TextFields(s, engine, c);
    WorkloadAt(s.workloads);
    forall i | 0 <= i < |s.workloads| ensures Intact("workload", " ", s.workloads[i]) {
      assert FieldOk(all[14 + i]) && all[14 + i] == WorkloadFields(s.workloads)[i];
    }
  }

  lemma {:induction false} TextsIntactIff(s: Settings, engine: string, c: Libc)
    requires Saveable(s, c)
    ensures TextsIntact(s, engine) <==> forall i :: 0 <= i < |AllFields(s, engine, c)| ==> FieldOk(AllFields(s, engine, c)[i])
  {
    if TextsIntact(s, engine) {
      forall i | 0 <= i < |AllFields(s, engine, c)| ensures FieldOk(AllFields(s, engine, c)[i]) {
        IntactFields(s, engine, c, i);
      }
    } else if forall i :: 0 <= i < |AllFields(s, engine, c)| ==> FieldOk(AllFields(s, engine, c)[i]) {
      IntactTexts(s, engine, c);
    }
  }

  lemma {:induction false} FirstBad(fs: seq<Field>) returns (i: nat)
    requires exists k :: 0 <= k < |fs| && !FieldOk(fs[k])
    ensures i < |fs| && !FieldOk(fs[i]) && forall k :: 0 <= k < i ==> FieldOk(fs[k])
  {
    i := 0;
    while FieldOk(fs[i])
      invariant i < |fs| && forall k :: 0 <= k < i ==> FieldOk(fs[k])
      decreases |fs| - i
    {
      i := i + 1;
    }
  }

  lemma {:induction false} FieldKeys(s: Settings, engine: string, c: Libc)
    ensures DistinctKeys(Fields(s, engine, c))
    ensures forall i :: 0 <= i < |Fields(s, engine, c)| ==> Fields(s, engine, c)[i].key != "workload"
  {
  }

  lemma {:induction false} KeysNotK(s: Settings, engine: string, c: Libc, i: nat)
    requires i < |Fields(s, engine, c)|
    ensures var key := Fields(s, engine, c)[i].key; key != "" && key[0] != 'k'
  {
  }

  // ----- the replay restores the settings -----

  /** What the bench section of a loaded replay file holds: every field under its key. */
  ghost predicate Carries(kv: seq<Pair>, fs: seq<Field>, files: seq<string>) {
    (forall i :: 0 <= i < |fs| ==> OptStr(kv, fs[i].key) == fs[i].val) && OptAll(kv, "workload") == files
  }

  lemma {:induction false} LookupField(s: Settings, engine: string, c: Libc, junk: seq<Pair>, i: nat)
    requires Junk(junk) && i < |Fields(s, engine, c)|
    ensures OptStr(junk + PairsOf(AllFields(s, engine, c)), Fields(s, engine, c)[i].key) == Fields(s, engine, c)[i].val
  {
    var fs, ws := Fields(s, engine, c), WorkloadFields(s.workloads);
    var key := fs[i].key;
    FieldKeys(s, engine, c);
    KeysNotK(s, engine, c, i);
    FieldLookup(fs, i);
    WorkloadsBack(s.workloads);
    NoField(ws, key);
    LookupAppend(PairsOf(fs), PairsOf(ws), key);
    PairsOfAppend(fs, ws);
    JunkHidesNothing(junk, PairsOf(fs + ws), key);
  }

  lemma {:induction false} LookupWorkloads(s: Settings, engine: string, c: Libc, junk: seq<Pair>)
    requires Junk(junk)
    ensures OptAll(junk + PairsOf(AllFields(s, engine, c)), "workload") == s.workloads
  {
    var fs, ws := Fields(s, engine, c), WorkloadFields(s.workloads);
    FieldKeys(s, engine, c);
    NoField(fs, "workload");
    WorkloadsBack(s.workloads);
    LookupAppend(PairsOf(fs), PairsOf(ws), "workload");
    PairsOfAppend(fs, ws);
    JunkHidesNothing(junk, PairsOf(fs + ws), "workload");
  }

  /** An integer field, present or left at its default, is read as the number saved. */
  lemma {:induction false} IntBack(kv: seq<Pair>, key: string, dflt: int, n: int, c: Libc)
    requires Exact(n) && (OptStr(kv, key) == Some(Decimal(n)) || (OptStr(kv, key) == None && n == dflt))
    ensures OptInt(kv, key, dflt, c) == n
  {
    DecimalBack(n, dflt, c);
  }

  lemma {:induction false} SmallDecimal()
    ensures Decimal(1) == "1"
  {
  }

  lemma {:induction false} FlagsBack(s: Settings, engine: string, c: Libc, kv: seq<Pair>)
    requires Saveable(s, c) && Carries(kv, Fields(s, engine, c), s.workloads)
    ensures OptInt(kv, "seed_threads", 0, c) == Normal(s, engine).seedThreads
    ensures OptInt(kv, "seed_once", 0, c) == Normal(s, engine).seedOnce
    ensures OptInt(kv, "pin", 0, c) == Normal(s, engine).pin
  {
    var fs, n := Fields(s, engine, c), Normal(s, engine);
    SmallDecimal();
    assert OptStr(kv, fs[2].key) == fs[2].val && OptStr(kv, fs[3].key) == fs[3].val && OptStr(kv, fs[4].key) == fs[4].val;
    IntBack(kv, "seed_threads", 0, n.seedThreads, c);
    IntBack(kv, "seed_once", 0, n.seedOnce, c);
    IntBack(kv, "pin", 0, n.pin, c);
  }

  lemma {:induction false} CountsBack(s: Settings, engine: string, c: Libc, kv: seq<Pair>)
    requires Saveable(s, c) && Carries(kv, Fields(s, engine, c), s.workloads)
    ensures OptInt(kv, "users", DEFAULTS.users, c) == s.users
    ensures OptInt(kv, "items", DEFAULTS.items, c) == s.items
    ensures OptInt(kv, "seed", DEFAULTS.seed, c) == s.seed
    ensures OptInt(kv, "repeat", DEFAULTS.repeat, c) == s.repeat
  {
    var fs := Fields(s, engine, c);
    assert OptStr(kv, fs[7].key) == fs[7].val && OptStr(kv, fs[8].key) == fs[8].val;
    assert OptStr(kv, fs[9].key) == fs[9].val && OptStr(kv, fs[10].key) == fs[10].val;
    IntBack(kv, "users", DEFAULTS.users, s.users, c);
    IntBack(kv, "items", DEFAULTS.items, s.items, c);
    IntBack(kv, "seed", DEFAULTS.seed, s.seed, c);
    IntBack(kv, "repeat", DEFAULTS.repeat, s.repeat, c);
  }

  lemma {:induction false} LengthBack(s: Settings, engine: string, c: Libc, kv: seq<Pair>)
    requires Saveable(s, c) && Carries(kv, Fields(s, engine, c), s.workloads)
    ensures OptStr(kv, "secs") == When(s.secs > 0.0, c.format(s.secs))
    ensures !(s.secs > 0.0) ==> OptInt(kv, "ops", DEFAULTS.ops, c) == s.ops
  {
    var fs := Fields(s, engine, c);
    assert OptStr(kv, fs[5].key) == fs[5].val && OptStr(kv, fs[6].key) == fs[6].val;
    if !(s.secs > 0.0) { IntBack(kv, "ops", DEFAULTS.ops, s.ops, c); }
  }

  lemma {:induction false} TextsBack(s: Settings, engine: string, c: Libc, kv: seq<Pair>)
    requires Carries(kv, Fields(s, engine, c), s.workloads)
    ensures OptStr(kv, "backend") == Normal(s, engine).backend && OptStr(kv, "threads") == Normal(s, engine).threads
    ensures OptStr(kv, "data_dir") == NonEmpty(s.dataDir)
    ensures OptStr(kv, "report_dir") == if s.target.Dir? then Some(s.target.dir) else None
    ensures OptStr(kv, "report") == if s.target.Spec? then Some(s.target.spec) else None
  {
    var fs := Fields(s, engine, c);
    assert OptStr(kv, fs[0].key) == fs[0].val && OptStr(kv, fs[1].key) == fs[1].val;
    assert OptStr(kv, fs[11].key) == fs[11].val && OptStr(kv, fs[12].key) == fs[12].val && OptStr(kv, fs[13].key) == fs[13].val;
  }

  /** The lookups found what Normal says, as far as the completion looks at it. */
  ghost predicate Expected(f: Found, s: Settings, engine: string, c: Libc) {
    var n := Normal(s, engine);
    && f.backend == n.backend && f.threads == n.threads && f.dataDir == n.dataDir
    && f.secs == When(s.secs > 0.0, c.format(s.secs)) && (!(s.secs > 0.0) ==> f.ops == s.ops)
    && f.users == n.users && f.items == n.items && f.seed == n.seed && f.repeat == n.repeat
    && f.seedThreads == n.seedThreads && f.seedOnce == n.seedOnce && f.pin == n.pin
    && f.reportDir == (if s.target.Dir? then Some(s.target.dir) else None)
    && f.report == (if s.target.Spec? then Some(s.target.spec) else None)
    && f.workloads == s.workloads
  }

  lemma {:induction false} LookupsExpected(s: Settings, engine: string, c: Libc, kv: seq<Pair>)
    requires Saveable(s, c) && Carries(kv, Fields(s, engine, c), s.workloads)
    ensures Expected(Lookups(DEFAULTS, kv, c), s, engine, c)
  {
    FlagsBack(s, engine, c, kv);
    CountsBack(s, engine, c, kv);
    LengthBack(s, engine, c, kv);
    TextsBack(s, engine, c, kv);
  }

  /** The settings are in the form the replay file keeps. */
  predicate Canonical(s: Settings) {
    && s.backend.Some? && s.threads.Some? && s.dataDir != Some("")
    && s.seedThreads >= 0 && s.seedOnce in {0, 1} && s.pin in {0, 1}
    && s.secs >= 0.0 && (s.secs > 0.0 ==> s.ops == 0)
  }

  lemma {:induction false} CompleteExpected(s: Settings, engine: string, c: Libc, f: Found)
    requires Saveable(s, c) && Expected(f, s, engine, c)
    ensures Complete(DEFAULTS, f, c) == Normal(s, engine) <==> SecsKept(s, c)
    ensures Complete(DEFAULTS, f, c) == s <==> SecsKept(s, c) && Canonical(s)
  {
    var r := Complete(DEFAULTS, f, c);
    assert r.secs == if s.secs > 0.0 then Atof(c.format(s.secs), c) else 0.0;
    if SecsKept(s, c) { assert r == Normal(s, engine); }
  }

  /** The texts and the duration of the settings under their keys. */
  ghost predicate SavedTexts(kv: seq<Pair>, s: Settings, engine: string, c: Libc) {
    && OptStr(kv, "backend") == Some(if s.backend.Some? then s.backend.value else engine)
    && OptStr(kv, "threads") == Some(if s.threads.Some? then s.threads.value else "1")
    && OptStr(kv, "secs") == (if s.secs > 0.0 then Some(c.format(s.secs)) else None)
    && OptStr(kv, "data_dir") == (if s.dataDir == Some("") then None else s.dataDir)
    && OptStr(kv, "report_dir") == (if s.target.Dir? then Some(s.target.dir) else None)
    && OptStr(kv, "report") == (if s.target.Spec? then Some(s.target.spec) else None)
    && OptAll(kv, "workload") == s.workloads
  }

  /** The numbers and flags under theirs. */
  ghost predicate SavedNumbers(kv: seq<Pair>, s: Settings) {
    && OptStr(kv, "seed_threads") == (if s.seedThreads > 0 then Some(Decimal(s.seedThreads)) else None)
    && OptStr(kv, "seed_once") == (if s.seedOnce != 0 then Some("1") else None)
    && OptStr(kv, "pin") == (if s.pin != 0 then Some("1") else None)
    && OptStr(kv, "ops") == (if s.secs > 0.0 then None else Some(Decimal(s.ops)))
    && OptStr(kv, "users") == Some(Decimal(s.users)) && OptStr(kv, "items") == Some(Decimal(s.items))
    && OptStr(kv, "seed") == Some(Decimal(s.seed)) && OptStr(kv, "repeat") == Some(Decimal(s.repeat))
  }

  lemma {:induction false} NumbersUnderKeys(s: Settings, engine: string, c: Libc, kv: seq<Pair>)
    requires Carries(kv, Fields(s, engine, c), s.workloads)
    ensures SavedNumbers(kv, s)
  {
    var fs := Fields(s, engine, c);
    assert OptStr(kv, fs[2].key) == fs[2].val && OptStr(kv, fs[3].key) == fs[3].val && OptStr(kv, fs[4].key) == fs[4].val;
    assert OptStr(kv, fs[6].key) == fs[6].val && OptStr(kv, fs[7].key) == fs[7].val && OptStr(kv, fs[8].key) == fs[8].val;
    assert OptStr(kv, fs[9].key) == fs[9].val && OptStr(kv, fs[10].key) == fs[10].val;
  }

  lemma {:induction false} TextsUnderKeys(s: Settings, engine: string, c: Libc, kv: seq<Pair>)
    requires Carries(kv, Fields(s, engine, c), s.workloads)
    ensures SavedTexts(kv, s, engine, c)
  {
    var fs := Fields(s, engine, c);
    assert OptStr(kv, fs[0].key) == fs[0].val && OptStr(kv, fs[1].key) == fs[1].val && OptStr(kv, fs[5].key) == fs[5].val;
    assert OptStr(kv, fs[11].key) == fs[11].val && OptStr(kv, fs[12].key) == fs[12].val && OptStr(kv, fs[13].key) == fs[13].val;
  }

  /** The saved text is read up to its fields, with at most the banner's entry before them. */
  lemma {:induction false} LoadStart(s: Settings, engine: string, c: Libc, version: string, path: string, conf: seq<Section>)
    returns (junk: seq<Pair>)
    requires Plain(version) && Plain(path) && |Banner(version, path)| <= LINE_MAX
    ensures Junk(junk)
    ensures Parse(SaveText(s, engine, c, version, path, conf))
            == ReadText(Building([], "bench", junk), PrintFields(AllFields(s, engine, c)) + PrintSections(Others(conf)))
  {
    var body := PrintFields(AllFields(s, engine, c)) + PrintSections(Others(conf));
    junk := ReadBanner(version, path, "\n" + (PrintHeader("bench") + body));
    ReadBenchHeader(junk, body);
  }

  /** Loading the saved text gives a bench section that carries every field, then the other sections. */
  lemma {:induction false} LoadSaved(s: Settings, engine: string, c: Libc, version: string, path: string, conf: seq<Section>)
    returns (kv: seq<Pair>)
    requires Saveable(s, c) && TextsIntact(s, engine)
    requires Plain(version) && Plain(path) && |Banner(version, path)| <= LINE_MAX
    ensures Carries(kv, Fields(s, engine, c), s.workloads) && SavedTexts(kv, s, engine, c) && SavedNumbers(kv, s)
    ensures Parse(SaveText(s, engine, c, version, path, conf))
            == ReadText(Config([Section("bench", kv)], 0), PrintSections(Others(conf)))
  {
    var fs := AllFields(s, engine, c);
    var junk := LoadStart(s, engine, c, version, path, conf);
    AllShaped(s, engine, c);
    TextsIntactIff(s, engine, c);
    ReadFields(junk, fs, PrintSections(Others(conf)));
    kv := junk + PairsOf(fs);
    assert Building([], "bench", kv) == Config([Section("bench", kv)], 0);
    forall i | 0 <= i < |Fields(s, engine, c)| ensures OptStr(kv, Fields(s, engine, c)[i].key) == Fields(s, engine, c)[i].val {
      LookupField(s, engine, c, junk, i);
    }
    LookupWorkloads(s, engine, c, junk);
    NumbersUnderKeys(s, engine, c, kv);
    TextsUnderKeys(s, engine, c, kv);
  }

  // ----- a text that does not come back -----

  /** The bench section starts with the fields before i and what field i is read as. */
  ghost predicate Loses(kv: seq<Pair>, junk: seq<Pair>, fs: seq<Field>, i: nat)
    requires i < |fs| && Shaped(fs[i]) && fs[i].val.Some?
  {
    Junk(junk) && junk + PairsUpTo(fs, i) <= kv
  }

  lemma {:induction false} LoadLost(s: Settings, engine: string, c: Libc, version: string, path: string, conf: seq<Section>, i: nat)
    returns (junk: seq<Pair>)
    requires Plain(version) && Plain(path) && |Banner(version, path)| <= LINE_MAX
    requires i < |AllFields(s, engine, c)| && !FieldOk(AllFields(s, engine, c)[i]) && Shaped(AllFields(s, engine, c)[i])
    requires forall k :: 0 <= k < i ==> FieldOk(AllFields(s, engine, c)[k])
    ensures |Parse(SaveText(s, engine, c, version, path, conf)).sections| > 0
    ensures Loses(Parse(SaveText(s, engine, c, version, path, conf)).sections[0].kv, junk, AllFields(s, engine, c), i)
  {
    var fs := AllFields(s, engine, c);
    junk := LoadStart(s, engine, c, version, path, conf);
    AllShaped(s, engine, c);
    ReadBadFields(junk, fs, PrintSections(Others(conf)), i);
    assert Building([], "bench", junk + PairsUpTo(fs, i)).sections[0].kv == junk + PairsUpTo(fs, i);
  }

  lemma {:induction false} LookupPrefix(a: seq<Pair>, kv: seq<Pair>, key: string)
    requires a <= kv
    ensures OptStr(a, key).Some? ==> OptStr(kv, key) == OptStr(a, key)
    ensures OptAll(a, key) <= OptAll(kv, key)
  {
    assert kv == a + kv[|a|..];
    LookupAppend(a, kv[|a|..], key);
  }

  /** The lookup of a lost field finds what its line was read as. */
  lemma {:induction false} LostLookup(s: Settings, engine: string, c: Libc, kv: seq<Pair>, junk: seq<Pair>, i: nat)
    requires i < |Fields(s, engine, c)| && Shaped(AllFields(s, engine, c)[i]) && AllFields(s, engine, c)[i].val.Some?
    requires Loses(kv, junk, AllFields(s, engine, c), i)
    ensures var f := AllFields(s, engine, c)[i]; OptStr(kv, f.key) == Some(ReadValue(f))
  {
    var fs := AllFields(s, engine, c);
    var key, one := fs[i].key, [Pair(fs[i].key, ReadValue(fs[i]))];
    FieldKeys(s, engine, c);
    KeysNotK(s, engine, c, i);
    assert fs[..i] == Fields(s, engine, c)[..i];
    NoField(fs[..i], key);
    LookupAppend(PairsOf(fs[..i]), one, key);
    JunkHidesNothing(junk, PairsUpTo(fs, i), key);
    LookupPrefix(junk + PairsUpTo(fs, i), kv, key);
  }

  /** The workloads among the fields before the j-th workload and what that one is read as. */
  lemma {:induction false} WorkloadsUpTo(s: Settings, engine: string, c: Libc, j: nat)
    requires j < |s.workloads|
    ensures AllFields(s, engine, c)[14 + j] == Field("workload", " ", Some(s.workloads[j]))
    ensures OptAll(PairsOf(AllFields(s, engine, c)[..14 + j]), "workload") == s.workloads[..j]
  {
    var fs, before := Fields(s, engine, c), s.workloads[..j];
    WorkloadAt(s.workloads);
    WorkloadAt(before);
    assert AllFields(s, engine, c)[..14 + j] == fs + WorkloadFields(before);
    PairsOfAppend(fs, WorkloadFields(before));
    FieldKeys(s, engine, c);
    NoField(fs, "workload");
    WorkloadsBack(before);
    LookupAppend(PairsOf(fs), PairsOf(WorkloadFields(before)), "workload");
  }

  /** So does that of a lost workload, at its place in the list. */
  lemma {:induction false} LostWorkload(s: Settings, engine: string, c: Libc, kv: seq<Pair>, junk: seq<Pair>, j: nat)
    requires j < |s.workloads| && Shaped(AllFields(s, engine, c)[14 + j]) && AllFields(s, engine, c)[14 + j].val.Some?
    requires Loses(kv, junk, AllFields(s, engine, c), 14 + j)
    ensures s.workloads[..j] + [ReadValue(AllFields(s, engine, c)[14 + j])] <= OptAll(kv, "workload")
  {
    var fs, i := AllFields(s, engine, c), 14 + j;
    var one := [Pair(fs[i].key, ReadValue(fs[i]))];
    WorkloadsUpTo(s, engine, c, j);
    LookupAppend(PairsOf(fs[..i]), one, "workload");
    assert OptAll(one, "workload") == [ReadValue(fs[i])] by { assert one[1..] == []; }
    JunkHidesNothing(junk, PairsUpTo(fs, i), "workload");
    LookupPrefix(junk + PairsUpTo(fs, i), kv, "workload");
  }

  lemma {:induction false} LostWorkloadDiffers(s: Settings, engine: string, c: Libc, kv: seq<Pair>, j: nat, w: string)
    requires j < |s.workloads| <= MAX_FILES && w != s.workloads[j]
    requires s.workloads[..j] + [w] <= OptAll(kv, "workload")
    ensures Applied(DEFAULTS, kv, c).workloads != s.workloads
  {
    assert (s.workloads[..j] + [w])[j] == w;
    assert OptAll(kv, "workload")[j] == w;
    assert |Applied(DEFAULTS, kv, c).workloads| > j && Applied(DEFAULTS, kv, c).workloads[j] == w;
  }

  /** The text settings in the order of their fields, the two kinds of report last. */
  function TextPart(s: Settings): (Option<string>, Option<string>, Option<string>, Target) {
    (s.backend, s.threads, s.dataDir, s.target)
  }

  lemma {:induction false} AppliedTexts(kv: seq<Pair>, c: Libc)
    ensures TextPart(Applied(DEFAULTS, kv, c))
            == (OptStr(kv, "backend"), OptStr(kv, "threads"), OptStr(kv, "data_dir"),
                if OptStr(kv, "report_dir").Some? then Dir(OptStr(kv, "report_dir").value)
                else if OptStr(kv, "report").Some? then Spec(OptStr(kv, "report").value) else Console)
  {
  }

  lemma {:induction false} LostText(s: Settings, engine: string, c: Libc, kv: seq<Pair>, i: nat, f: Field, w: string)
    requires i in {0, 1, 11, 12, 13} && f == Fields(s, engine, c)[i] && f.val.Some? && f.val != Some(w)
    requires OptStr(kv, f.key) == Some(w)
    ensures TextPart(Applied(DEFAULTS, kv, c)) != TextPart(Normal(s, engine))
    ensures TextPart(Applied(DEFAULTS, kv, c)) != TextPart(s)
  {
    TextFields(s, engine, c);
    AppliedTexts(kv, c);
  }

  lemma {:induction false} LostField(s: Settings, engine: string, c: Libc, kv: seq<Pair>, junk: seq<Pair>, i: nat)
    requires Saveable(s, c) && i < 14 && !FieldOk(AllFields(s, engine, c)[i])
    requires Shaped(AllFields(s, engine, c)[i]) && Loses(kv, junk, AllFields(s, engine, c), i)
    ensures Applied(DEFAULTS, kv, c) != Normal(s, engine) && Applied(DEFAULTS, kv, c) != s
  {
    var f := AllFields(s, engine, c)[i];
    FieldLine(f);
    assert f == Fields(s, engine, c)[i];
    OnlyTexts(s, engine, c, i);
    LostLookup(s, engine, c, kv, junk, i);
    LostText(s, engine, c, kv, i, f, ReadValue(f));
  }

  lemma {:induction false} LostListed(s: Settings, engine: string, c: Libc, kv: seq<Pair>, junk: seq<Pair>, j: nat, f: Field)
    requires j < |s.workloads| <= MAX_FILES && f == AllFields(s, engine, c)[14 + j] && f.val == Some(s.workloads[j])
    requires !FieldOk(f) && Shaped(f) && Loses(kv, junk, AllFields(s, engine, c), 14 + j)
    ensures Applied(DEFAULTS, kv, c).workloads != s.workloads
  {
    FieldLine(f);
    LostWorkload(s, engine, c, kv, junk, j);
    LostWorkloadDiffers(s, engine, c, kv, j, ReadValue(f));
  }

  /** The settings then differ from those saved, whatever else the file holds. */
  lemma {:induction false} LostDiffers(s: Settings, engine: string, c: Libc, kv: seq<Pair>, junk: seq<Pair>, i: nat)
    requires Saveable(s, c) && i < |AllFields(s, engine, c)| && !FieldOk(AllFields(s, engine, c)[i])
    requires Shaped(AllFields(s, engine, c)[i]) && Loses(kv, junk, AllFields(s, engine, c), i)
    ensures Applied(DEFAULTS, kv, c) != Normal(s, engine) && Applied(DEFAULTS, kv, c) != s
  {
    if i < 14 {
      LostField(s, engine, c, kv, junk, i);
    } else {
      WorkloadsUpTo(s, engine, c, i - 14);
      LostListed(s, engine, c, kv, junk, i - 14, AllFields(s, engine, c)[i]);
    }
  }

  lemma {:induction false} TextsLost(s: Settings, engine: string, c: Libc, version: string, path: string, conf: seq<Section>)
    requires Saveable(s, c) && !TextsIntact(s, engine)
    requires Plain(version) && Plain(path) && |Banner(version, path)| <= LINE_MAX
    ensures var loaded := Parse(SaveText(s, engine, c, version, path, conf)).sections;
            && |loaded| > 0 && Applied(DEFAULTS, loaded[0].kv, c) != Normal(s, engine)
            && Applied(DEFAULTS, loaded[0].kv, c) != s
  {
    TextsIntactIff(s, engine, c);
    AllShaped(s, engine, c);
    var i := FirstBad(AllFields(s, engine, c));
    var junk := LoadLost(s, engine, c, version, path, conf, i);
    LostDiffers(s, engine, c, Parse(SaveText(s, engine, c, version, path, conf)).sections[0].kv, junk, i);
  }

  lemma {:induction false} SecsLost(s: Settings, engine: string, c: Libc, kv: seq<Pair>, kv': seq<Pair>)
    requires Carries(kv, Fields(s, engine, c), s.workloads) && kv <= kv' && !SecsKept(s, c)
    ensures Applied(DEFAULTS, kv', c) != Normal(s, engine)
  {
    assert OptStr(kv, Fields(s, engine, c)[5].key) == Some(c.format(s.secs));
    LookupPrefix(kv, kv', "secs");
    assert Applied(DEFAULTS, kv', c).secs == Atof(c.format(s.secs), c) != Normal(s, engine).secs;
  }

  // ----- the main result -----

  /** Save, load and apply, with any texts and any sections of a parsed file. Whatever the sections, a text
      whose line does not give it back, or a duration the number format changes, is lost. When no section
      with entries reads back as bench, nothing else is: the settings come back in the file's normal form
      exactly when the texts and the duration are kept, and as they were exactly when they are canonical
      too. With such texts the other sections come back in order exactly when they are printable. */
  lemma {:induction false} ReplayRestores(s: Settings, engine: string, c: Libc, version: string, path: string, conf: Config)
    requires Saveable(s, c) && ConfigOk(conf)
    requires Plain(version) && Plain(path) && |Banner(version, path)| <= LINE_MAX
    ensures var loaded := Parse(SaveText(s, engine, c, version, path, conf.sections)).sections;
            var ss := Others(conf.sections);
            && |loaded| > 0
            && (!TextsIntact(s, engine) || !SecsKept(s, c) ==> Applied(DEFAULTS, loaded[0].kv, c) != Normal(s, engine))
            && (BenchApart(ss) ==>
                  && (Applied(DEFAULTS, loaded[0].kv, c) == Normal(s, engine) <==> TextsIntact(s, engine) && SecsKept(s, c))
                  && (Applied(DEFAULTS, loaded[0].kv, c) == s <==> TextsIntact(s, engine) && SecsKept(s, c) && Canonical(s)))
            && (TextsIntact(s, engine) ==> (loaded[1..] == ss <==> Tidy(ss) && SectionsReadable(ss)))
  {
    if TextsIntact(s, engine) {
      var kv := LoadSaved(s, engine, c, version, path, conf.sections);
      LookupsExpected(s, engine, c, kv);
      CompleteExpected(s, engine, c, Lookups(DEFAULTS, kv, c));
      var bench := Section("bench", kv);
      RoundTripIff(conf, bench);
      BenchKeptIff(Config([bench], 0), Others(conf.sections));
      if !SecsKept(s, c) {
        ReadGrows(Config([bench], 0), PrintSections(Others(conf.sections)));
        SecsLost(s, engine, c, kv, Parse(SaveText(s, engine, c, version, path, conf.sections)).sections[0].kv);
      }
    } else {
      TextsLost(s, engine, c, version, path, conf.sections);
    }
  }

  // ----- settings that do not come back -----

  /** Where white space stands before a comment mark in a value, its line keeps what is before. */
  lemma {:induction false} MarkCuts(k: string, pad: string, u: string, x: string)
    requires KeyOk(k) && Pad(pad) && ValueText(u) && Plain(x) && x != "" && IsMark(x[0])
    requires |k| + |pad| + 4 + |u| <= LINE_MAX
    ensures FirstLine(k, pad, u + " " + x) == Entry(k, u)
  {
    var l, w := PrintEntry(k, pad, u + " " + x), PrintEntry(k, pad, u);
    var n := ChunkLen(l);
    CleanEntry(k, pad, u);
    assert l == w[..|w| - 1] + " " + x + "\n";
    PlainMarked(l, w, x);
    var raw := l[..n];
    PlainCStr(raw);
    assert raw[..|w| - 1] == w[..|w| - 1];
    NoMarkBefore(raw, w);
    CutIs(raw, |w|);
    assert raw[..|w|] == k + pad + "=" + (" " + u + " ");
    BlanksAround(k, pad, u);
  }

  lemma {:induction false} CleanEntry(k: string, pad: string, u: string)
    requires KeyOk(k) && Pad(pad) && ValueText(u) && |k| + |pad| + 3 + |u| <= LINE_MAX
    ensures var w := PrintEntry(k, pad, u); WholeLine(w) && '\0' !in w && NoComment(w)
  {
    var w := PrintEntry(k, pad, u);
    EntryUncut(k, pad, u);
    WholeChunk(w);
    assert w[..|w|] == w;
    CutLeavesNone(CStr(w));
    EntryParts(k, pad, u);
  }

  lemma {:induction false} BlanksAround(k: string, pad: string, u: string)
    requires KeyOk(k) && Pad(pad) && Trimmed(u)
    ensures Classify(Trim(k + pad + "=" + (" " + u + " "))) == Entry(k, u)
  {
    var x := " " + u + " ";
    EntryFrom(k + pad + "=" + x, k, pad, x);
    if u == "" {
      TrimIs(x, 2, 2);
    } else {
      TrimIs(x, 1, 1 + |u|);
      assert x[1..1 + |u|] == u;
    }
  }

  lemma {:induction false} PlainMarked(l: string, w: string, x: string)
    requires WholeLine(w) && '\0' !in w && Plain(x) && |w| < LINE_MAX && x != ""
    requires l == w[..|w| - 1] + " " + x + "\n"
    ensures '\0' !in l && |w| < ChunkLen(l)
  {
    assert l[|l| - 1] == '\n';
    forall i | 0 <= i < |l| ensures l[i] != '\0' && (i <= |w| ==> l[i] != '\n') {
      if i < |w| - 1 {
        assert l[i] == w[i];
      } else if |w| <= i < |l| - 1 {
        assert l[i] == x[i - |w|];
      }
    }
  }

  lemma {:induction false} NoMarkBefore(raw: string, w: string)
    requires 0 < |w| <= |raw| && NoComment(w) && raw[..|w| - 1] == w[..|w| - 1] && raw[|w| - 1] == ' '
    ensures NoComment(raw[..|w|])
  {
    forall p | 0 <= p < |w| ensures !CommentStart(raw[..|w|], p) {
      assert !CommentStart(w, p);
      assert p < |w| - 1 ==> raw[p] == raw[..|w| - 1][p] == w[p];
      assert p > 0 ==> raw[p - 1] == raw[..|w| - 1][p - 1] == w[p - 1];
    }
  }

  /** A data directory such as "/mnt/a #1" comes back as "/mnt/a". */
  lemma {:induction false} DataDirLost(s: Settings, engine: string, c: Libc, version: string, path: string, conf: seq<Section>, u: string, x: string)
    requires Saveable(s, c) && TextsIntact(s.(dataDir := None), engine)
    requires ValueText(u) && Plain(x) && x != "" && IsMark(x[0]) && |u| <= 1000
    requires s.dataDir == Some(u + " " + x)
    requires Plain(version) && Plain(path) && |Banner(version, path)| <= LINE_MAX
    ensures var loaded := Parse(SaveText(s, engine, c, version, path, conf)).sections;
            |loaded| > 0 && Applied(DEFAULTS, loaded[0].kv, c).dataDir == Some(u)
  {
    var fs, f := AllFields(s, engine, c), Field("data_dir", " ", s.dataDir);
    AllShaped(s, engine, c);
    TextFields(s, engine, c);
    assert fs[11] == f;
    WordKey("data_dir");
    MarkCuts("data_dir", " ", u, x);
    FieldLine(f);
    assert |u + " " + x| > |u|;
    forall k | 0 <= k < 11 ensures FieldOk(fs[k]) {
      if !FieldOk(Fields(s, engine, c)[k]) { OnlyTexts(s, engine, c, k); }
    }
    var junk := LoadLost(s, engine, c, version, path, conf, 11);
    LostLookup(s, engine, c, Parse(SaveText(s, engine, c, version, path, conf)).sections[0].kv, junk, 11);
  }

  /** A section whose name was cut to "bench" and blanks changes settings of the run it is saved from. */
  lemma {:induction false} PaddedBenchChanges(s: Settings, engine: string, c: Libc, version: string, path: string, conf: seq<Section>, n: string)
    requires Saveable(s, c) && TextsIntact(s, engine) && s.seedThreads <= 0
    requires PaddedBench(n) && Others(conf) == [Section(n, [Pair("seed_threads", "4")])]
    requires Plain(version) && Plain(path) && |Banner(version, path)| <= LINE_MAX
    ensures var loaded := Parse(SaveText(s, engine, c, version, path, conf)).sections;
            |loaded| > 0 && Applied(DEFAULTS, loaded[0].kv, c).seedThreads == 4 != Normal(s, engine).seedThreads
  {
    var kv := LoadSaved(s, engine, c, version, path, conf);
    var p := Pair("seed_threads", "4");
    AddedThreads(Section("bench", kv), n, p, Others(conf));
    NoThreads(s, engine, c, kv);
    ThreadsFound(kv, p, c);
  }

  lemma {:induction false} NoThreads(s: Settings, engine: string, c: Libc, kv: seq<Pair>)
    requires Carries(kv, Fields(s, engine, c), s.workloads) && s.seedThreads <= 0
    ensures OptStr(kv, "seed_threads") == None
  {
    assert OptStr(kv, Fields(s, engine, c)[2].key) == Fields(s, engine, c)[2].val;
  }

  lemma {:induction false} AddedThreads(bench: Section, n: string, p: Pair, ss: seq<Section>)
    requires bench.name == "bench" && PaddedBench(n) && p == Pair("seed_threads", "4") && ss == [Section(n, [p])]
    ensures ReadText(Config([bench], 0), PrintSections(ss)).sections == [Section("bench", bench.kv + [p])]
  {
    WordKey(p.key);
    PaddedBenchReenters(bench, n, p);
  }

  lemma {:induction false} ThreadsFound(kv: seq<Pair>, p: Pair, c: Libc)
    requires OptStr(kv, "seed_threads") == None && p == Pair("seed_threads", "4")
    ensures Applied(DEFAULTS, kv + [p], c).seedThreads == 4
  {
    LookupAppend(kv, [p], "seed_threads");
    assert Decimal(4) == "4";
    DecimalBack(4, 0, c);
  }

  // ----- the settings as the program holds them -----

  class Session {
    var cfg: Settings

    constructor ()
      ensures cfg == DEFAULTS
    {
      cfg := DEFAULTS;
    }

    method KvOptInt(kv: seq<Pair>, key: string, dflt: int, c: Libc) returns (n: int)
      ensures n == OptInt(kv, key, dflt, c)
    {
      var v := KvOptStr(kv, key);
      n := if v.Some? then ParseSize(v.value, dflt, c) else dflt;
    }

    /** Assigns the strings the bench section holds. */
    method ApplyTexts(kv: seq<Pair>, c: Libc)
      modifies this
      ensures cfg == old(cfg).(
                backend := Or(OptStr(kv, "backend"), old(cfg).backend),
                threads := Or(OptStr(kv, "threads"), old(cfg).threads),
                secs := if OptStr(kv, "secs").Some? then Atof(OptStr(kv, "secs").value, c) else old(cfg).secs,
                dataDir := Or(OptStr(kv, "data_dir"), old(cfg).dataDir),
                target := if OptStr(kv, "report_dir").Some? then Dir(OptStr(kv, "report_dir").value)
                          else if OptStr(kv, "report").Some? then Spec(OptStr(kv, "report").value) else old(cfg).target)
    {
      var s := KvOptStr(kv, "backend");
      if s.Some? { cfg := cfg.(backend := s); }
      s := KvOptStr(kv, "threads");
      if s.Some? { cfg := cfg.(threads := s); }
      s := KvOptStr(kv, "report");
      if s.Some? { cfg := cfg.(target := Spec(s.value)); }
      s := KvOptStr(kv, "secs");
      if s.Some? { cfg := cfg.(secs := Atof(s.value, c)); }
      s := KvOptStr(kv, "data_dir");
      if s.Some? { cfg := cfg.(dataDir := s); }
      s := KvOptStr(kv, "report_dir");
      if s.Some? { cfg := cfg.(target := Dir(s.value)); }
    }

    method ApplyCounts(kv: seq<Pair>, c: Libc)
      modifies this
      ensures cfg == old(cfg).(
                ops := OptInt(kv, "ops", old(cfg).ops, c), users := OptInt(kv, "users", old(cfg).users, c),
                items := OptInt(kv, "items", old(cfg).items, c), seed := UInt32(OptInt(kv, "seed", old(cfg).seed, c)))
    {
      var n := KvOptInt(kv, "ops", cfg.ops, c);
      cfg := cfg.(ops := n);
      n := KvOptInt(kv, "users", cfg.users, c);
      cfg := cfg.(users := n);
      n := KvOptInt(kv, "items", cfg.items, c);
      cfg := cfg.(items := n);
      n := KvOptInt(kv, "seed", cfg.seed, c);
      cfg := cfg.(seed := UInt32(n));
    }

    method ApplyFlags(kv: seq<Pair>, c: Libc)
      modifies this
      ensures cfg == old(cfg).(
                seedThreads := Int32(OptInt(kv, "seed_threads", old(cfg).seedThreads, c)),
                seedOnce := Int32(OptInt(kv, "seed_once", old(cfg).seedOnce, c)),
                pin := Int32(OptInt(kv, "pin", old(cfg).pin, c)), repeat := Int32(OptInt(kv, "repeat", old(cfg).repeat, c)))
    {
      var n := KvOptInt(kv, "seed_threads", cfg.seedThreads, c);
      cfg := cfg.(seedThreads := Int32(n));
      n := KvOptInt(kv, "seed_once", cfg.seedOnce, c);
      cfg := cfg.(seedOnce := Int32(n));
      n := KvOptInt(kv, "pin", cfg.pin, c);
      cfg := cfg.(pin := Int32(n));
      n := KvOptInt(kv, "repeat", cfg.repeat, c);
      cfg := cfg.(repeat := Int32(n));
    }

    /** Applies the bench section and completes the options. */
    method Apply(kv: seq<Pair>, c: Libc)
      modifies this
      ensures cfg == Applied(old(cfg), kv, c)
      ensures cfg.backend == Or(OptStr(kv, "backend"), old(cfg.backend)) && cfg.threads == Or(OptStr(kv, "threads"), old(cfg.threads))
      ensures cfg.dataDir == Or(OptStr(kv, "data_dir"), old(cfg.dataDir))
      ensures cfg.secs == if OptStr(kv, "secs").Some? then Atof(OptStr(kv, "secs").value, c) else old(cfg.secs)
      ensures cfg.ops == if cfg.secs > 0.0 then 0 else OptInt(kv, "ops", old(cfg.ops), c)
      ensures cfg.users == OptInt(kv, "users", old(cfg.users), c) && cfg.items == OptInt(kv, "items", old(cfg.items), c)
      ensures cfg.seed == UInt32(OptInt(kv, "seed", old(cfg.seed), c)) && cfg.pin == Int32(OptInt(kv, "pin", old(cfg.pin), c))
      ensures cfg.seedThreads == Int32(OptInt(kv, "seed_threads", old(cfg.seedThreads), c))
      ensures cfg.seedOnce == Int32(OptInt(kv, "seed_once", old(cfg.seedOnce), c))
      ensures var r := Int32(OptInt(kv, "repeat", old(cfg.repeat), c)); cfg.repeat == if r < 1 then 1 else r
      ensures cfg.target == if OptStr(kv, "report_dir").Some? then Dir(OptStr(kv, "report_dir").value)
                            else if OptStr(kv, "report").Some? then Spec(OptStr(kv, "report").value) else old(cfg.target)
      ensures cfg.workloads <= OptAll(kv, "workload") && (|cfg.workloads| == 64 || cfg.workloads == OptAll(kv, "workload"))
    {
      ApplyTexts(kv, c);
      ApplyCounts(kv, c);
      ApplyFlags(kv, c);
      var files := KvOptAll(kv, "workload", MAX_FILES);
      cfg := cfg.(workloads := files);
      if cfg.secs > 0.0 { cfg := cfg.(ops := 0); }
      if cfg.repeat < 1 { cfg := cfg.(repeat := 1); }
    }
  }

  /** Running from a saved file gives back the settings it was saved from, for settings in canonical form
      exactly when their texts and duration are kept. */
  method RunFrom(s: Settings, engine: string, c: Libc, version: string, path: string, conf: Config) returns (run: Session)
    requires Saveable(s, c) && Canonical(s) && ConfigOk(conf) && BenchApart(Others(conf.sections))
    requires Plain(version) && Plain(path) && |Banner(version, path)| <= LINE_MAX
    ensures run.cfg == s <==> TextsIntact(s, engine) && SecsKept(s, c)
  {
    var text := SaveText(s, engine, c, version, path, conf.sections);
    var file := Load(text);
    ReplayRestores(s, engine, c, version, path, conf);
    run := new Session();
    run.Apply(file.sections[0].kv, c);
  }
}
