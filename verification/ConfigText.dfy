/** The config file format: what one line means, how lines build sections, and the normal form of
    every parsed file (src/config.c). */
module ConfigText {
  import opened Wrappers

  const NAME_MAX: nat := 63
  const LINE_MAX: nat := 1023

  // ----- characters and strings -----

  predicate IsSpace(c: char) {
    c == ' ' || c == '\t' || c == '\n' || c == '\r' || c == '\U{0B}' || c == '\U{0C}'
  }

  predicate IsMark(c: char) { c == '#' || c == ';' }

  /** The first place where c stands, or the length. */
  function Find(s: string, c: char): (i: nat)
    ensures i <= |s| && (i < |s| ==> s[i] == c)
    ensures forall k :: 0 <= k < i ==> s[k] != c
  {
    if s == "" || s[0] == c then 0 else 1 + Find(s[1..], c)
  }

  lemma {:induction false} FindIs(s: string, c: char, i: nat)
    requires i <= |s| && (i < |s| ==> s[i] == c)
    requires forall k :: 0 <= k < i ==> s[k] != c
    ensures Find(s, c) == i
  {
  }

  /** What a C string function sees of a buffer: the text before the first NUL. */
  function CStr(s: string): string { s[..Find(s, '\0')] }

  /** A comment mark at the start of the line or after white space. */
  predicate CommentStart(s: string, p: nat)
    requires p < |s|
  {
    IsMark(s[p]) && (p == 0 || IsSpace(s[p - 1]))
  }

  predicate NoComment(s: string) {
    forall p :: 0 <= p < |s| ==> !CommentStart(s, p)
  }

  /** No comment mark after white space; one may stand at the start. */
  predicate NoInnerComment(s: string) {
    forall p :: 1 <= p < |s| ==> !CommentStart(s, p)
  }

  function CommentFrom(s: string, p: nat): (i: nat)
    requires p <= |s|
    ensures p <= i <= |s|
    ensures forall k :: p <= k < i ==> !CommentStart(s, k)
    ensures i < |s| ==> CommentStart(s, i)
    decreases |s| - p
  {
    if p == |s| || CommentStart(s, p) then p else CommentFrom(s, p + 1)
  }

  function CutComment(s: string): string { s[..CommentFrom(s, 0)] }

  lemma {:induction false} CutIs(s: string, i: nat)
    requires i <= |s| && NoComment(s[..i]) && (i < |s| ==> CommentStart(s, i))
    ensures CutComment(s) == s[..i]
  {
    forall k | 0 <= k < i ensures !CommentStart(s, k) {
      assert !CommentStart(s[..i], k);
    }
  }

  lemma {:induction false} CutLeavesNone(s: string)
    ensures NoComment(CutComment(s))
  {
    var i := CommentFrom(s, 0);
    forall p | 0 <= p < i ensures !CommentStart(s[..i], p) {
      assert !CommentStart(s, p);
    }
  }

  // ----- trimming -----

  predicate AllSpace(s: string, i: nat, j: nat)
    requires j <= |s|
  {
    forall k :: i <= k < j ==> IsSpace(s[k])
  }

  predicate Trimmed(s: string) {
    s == "" || (!IsSpace(s[0]) && !IsSpace(s[|s| - 1]))
  }

  function TrimLeft(s: string): string {
    if s != "" && IsSpace(s[0]) then TrimLeft(s[1..]) else s
  }

  function TrimRight(s: string): string {
    if s != "" && IsSpace(s[|s| - 1]) then TrimRight(s[..|s| - 1]) else s
  }

  function Trim(s: string): string { TrimRight(TrimLeft(s)) }

  /** The text is its part from i to j between two runs of white space. */
  ghost predicate TrimAt(s: string, i: nat, j: nat) {
    && i <= j <= |s| && AllSpace(s, 0, i) && AllSpace(s, j, |s|)
    && (i < j ==> !IsSpace(s[i]) && !IsSpace(s[j - 1]))
  }

  lemma {:induction false} TrimLeftParts(s: string) returns (i: nat)
    ensures i <= |s| && TrimLeft(s) == s[i..] && AllSpace(s, 0, i) && (i < |s| ==> !IsSpace(s[i]))
  {
    if s != "" && IsSpace(s[0]) {
      i := TrimLeftParts(s[1..]);
      forall k | 1 <= k <= i ensures IsSpace(s[k]) {
        assert IsSpace(s[1..][k - 1]);
      }
      i := i + 1;
    } else {
      i := 0;
    }
  }

  lemma {:induction false} TrimRightParts(s: string) returns (j: nat)
    ensures j <= |s| && TrimRight(s) == s[..j] && AllSpace(s, j, |s|) && (j > 0 ==> !IsSpace(s[j - 1]))
  {
    if s != "" && IsSpace(s[|s| - 1]) {
      var t := s[..|s| - 1];
      j := TrimRightParts(t);
      assert forall k :: j <= k < |t| ==> IsSpace(t[k]) && t[k] == s[k];
      assert t[..j] == s[..j];
    } else {
      j := |s|;
    }
  }

  lemma {:induction false} TrimParts(s: string) returns (i: nat, j: nat)
    ensures TrimAt(s, i, j) && Trim(s) == s[i..j]
  {
    i := TrimLeftParts(s);
    var t := s[i..];
    var n := TrimRightParts(t);
    j := i + n;
    forall k | j <= k < |s| ensures IsSpace(s[k]) {
      assert IsSpace(t[k - i]);
    }
    assert t[..n] == s[i..j];
  }

  /** Trimming is the only way to split a text so. */
  lemma {:induction false} TrimIs(s: string, i: nat, j: nat)
    requires TrimAt(s, i, j)
    ensures Trim(s) == s[i..j]
  {
    var a, b := TrimParts(s);
    assert i < j ==> a <= i && j <= b;
    assert a < b ==> i <= a && b <= j;
  }

  lemma {:induction false} TrimOfTrimmed(s: string)
    requires Trimmed(s)
    ensures Trim(s) == s
  {
    TrimIs(s, 0, |s|);
    assert s[0..|s|] == s;
  }

  // ----- one line -----

  datatype Line = Nothing | Header(name: string) | Entry(key: string, val: string)

  /** The reading of a line already cut and trimmed. */
  function Classify(s: string): Line {
    if s == "" then Nothing
    else if s[0] == '[' then
      var e := Find(s, ']');
      if e < |s| then Header(Trim(s[1..e])) else Nothing
    else
      var q := Find(s, '=');
      if q < |s| then Entry(Trim(s[..q]), Trim(s[q + 1..])) else Nothing
  }

  function ParseLine(raw: string): Line { Classify(Trim(CutComment(CStr(raw)))) }

  // ----- a whole file -----

  datatype Pair = Pair(key: string, val: string)
  datatype Section = Section(name: string, kv: seq<Pair>)
  datatype Config = Config(sections: seq<Section>, cur: nat)

  function SectionIndex(sections: seq<Section>, name: string): (i: nat)
    ensures i <= |sections| && (i < |sections| ==> sections[i].name == name)
    ensures forall k :: 0 <= k < i ==> sections[k].name != name
  {
    if sections == [] || sections[0].name == name then 0 else 1 + SectionIndex(sections[1..], name)
  }

  function Truncate(name: string): string {
    if |name| <= NAME_MAX then name else name[..NAME_MAX]
  }

  /** Opening a section that exists returns to it; otherwise a new one is appended. */
  function Enter(c: Config, name: string): Config {
    var i := SectionIndex(c.sections, name);
    if i < |c.sections| then c.(cur := i)
    else Config(c.sections + [Section(Truncate(name), [])], |c.sections|)
  }

  function Add(c: Config, key: string, val: string): Config
    requires c.cur < |c.sections|
  {
    var s := c.sections[c.cur];
    c.(sections := c.sections[c.cur := Section(s.name, s.kv + [Pair(key, val)])])
  }

  predicate Open(c: Config) { c.cur < |c.sections| }

  function Read(c: Config, line: Line): (r: Config)
    requires Open(c)
    ensures Open(r)
  {
    match line
    case Nothing => c
    case Header(name) => Enter(c, name)
    case Entry(key, val) => Add(c, key, val)
  }

  /** How much one buffered read takes: to the end of the line, but at most what the buffer holds. */
  function ChunkLen(text: string): (n: nat)
    ensures n <= |text| && n <= LINE_MAX && (text != "" ==> n > 0)
    ensures forall i :: 0 <= i < n - 1 ==> text[i] != '\n'
  {
    var i := Find(text, '\n');
    if i < |text| && i < LINE_MAX then i + 1
    else if |text| < LINE_MAX then |text| else LINE_MAX
  }

  function ReadText(c: Config, text: string): (r: Config)
    requires Open(c)
    ensures Open(r)
    decreases |text|
  {
    if text == "" then c
    else
      var n := ChunkLen(text);
      ReadText(Read(c, ParseLine(text[..n])), text[n..])
  }

  const EMPTY: Config := Config([Section("bench", [])], 0)

  function Parse(text: string): Config { ReadText(EMPTY, text) }

  // ----- the normal form -----

  /** Characters no stored text holds. */
  predicate Plain(s: string) { '\n' !in s && '\0' !in s }

  predicate KeyOk(k: string) {
    Trimmed(k) && Plain(k) && '=' !in k && NoComment(k) && (k != "" ==> k[0] != '[')
  }

  predicate ValOk(v: string) {
    Trimmed(v) && Plain(v) && NoInnerComment(v)
  }

  predicate PairOk(p: Pair) {
    KeyOk(p.key) && ValOk(p.val) && |p.key| + 1 + |p.val| <= LINE_MAX
  }

  /** A name cut to size may end in white space; a shorter one never does. */
  predicate NameOk(n: string) {
    && |n| <= NAME_MAX && Plain(n) && ']' !in n && NoInnerComment(n)
    && (n != "" ==> !IsSpace(n[0]))
    && (|n| < NAME_MAX ==> Trimmed(n))
  }

  predicate SectionOk(s: Section) {
    NameOk(s.name) && forall i :: 0 <= i < |s.kv| ==> PairOk(s.kv[i])
  }

  predicate ConfigOk(c: Config) {
    && Open(c) && c.sections[0].name == "bench"
    && forall i :: 0 <= i < |c.sections| ==> SectionOk(c.sections[i])
  }

  predicate LineOk(line: Line) {
    match line
    case Nothing => true
    case Header(name) => NameOk(Truncate(name))
    case Entry(key, val) => PairOk(Pair(key, val))
  }

  /** What a line is once cut and trimmed. */
  predicate LineText(s: string) {
    Trimmed(s) && Plain(s) && NoComment(s) && |s| <= LINE_MAX
  }

  /** A line as read: the newline only at its end, and no longer than the buffer. */
  predicate RawLine(raw: string) {
    |raw| <= LINE_MAX && forall i :: 0 <= i < |raw| - 1 ==> raw[i] != '\n'
  }

  lemma {:induction false} CleanLine(raw: string)
    requires RawLine(raw)
    ensures LineText(Trim(CutComment(CStr(raw))))
  {
    var s := CutComment(CStr(raw));
    CutLeavesNone(CStr(raw));
    var i, j := TrimParts(s);
    var t := s[i..j];
    assert i < j ==> s[j - 1] != '\n';
    forall k | 0 <= k < |t| ensures t[k] != '\n' && t[k] != '\0' && !CommentStart(t, k) {
      assert t[k] == s[i + k] == raw[i + k];
      assert !CommentStart(s, i + k);
    }
  }

  /** A slice of a line keeps what the line lacks. */
  lemma {:induction false} TrimSlice(s: string, a: nat, b: nat)
    requires Plain(s) && NoComment(s) && a <= b <= |s|
    ensures Trimmed(Trim(s[a..b])) && Plain(Trim(s[a..b])) && |Trim(s[a..b])| <= b - a
    ensures NoInnerComment(Trim(s[a..b]))
    ensures forall c :: c in Trim(s[a..b]) ==> c in s[a..b]
  {
    var i, j := TrimParts(s[a..b]);
    var t := Trim(s[a..b]);
    forall k | 0 <= k < |t| ensures t[k] in s && (k > 0 ==> !CommentStart(t, k)) {
      assert t[k] == s[a + i + k];
      assert k > 0 ==> t[k - 1] == s[a + i + k - 1];
      assert !CommentStart(s, a + i + k);
    }
  }

  lemma {:induction false} KeyNormal(s: string, q: nat)
    requires LineText(s) && q == Find(s, '=') && q < |s| && s[0] != '['
    ensures KeyOk(Trim(s[..q])) && |Trim(s[..q])| <= q
  {
    TrimSlice(s, 0, q);
    var p := s[..q];
    assert s[0..q] == p;
    var i, j := TrimParts(p);
    if i < j {
      assert s[0] == p[0] && i == 0;
      assert Trim(p)[0] == s[0] && !CommentStart(s, 0);
    }
  }

  lemma {:induction false} NameNormal(s: string, e: nat)
    requires LineText(s) && s != "" && s[0] == '[' && e == Find(s, ']') && e < |s|
    ensures NameOk(Truncate(Trim(s[1..e])))
  {
    TrimSlice(s, 1, e);
    var t := Trim(s[1..e]);
    var n := Truncate(t);
    forall k | 0 <= k < |n| ensures n[k] in s[1..e] && (k > 0 ==> !CommentStart(n, k)) {
      assert n[k] == t[k];
      assert k > 0 ==> !CommentStart(t, k);
    }
  }

  lemma {:induction false} LineNormal(raw: string)
    requires RawLine(raw)
    ensures LineOk(ParseLine(raw))
  {
    CleanLine(raw);
    var s := Trim(CutComment(CStr(raw)));
    if s != "" && s[0] == '[' {
      var e := Find(s, ']');
      if e < |s| { NameNormal(s, e); }
    } else if s != "" {
      var q := Find(s, '=');
      if q < |s| {
        KeyNormal(s, q);
        TrimSlice(s, q + 1, |s|);
        assert s[q + 1..|s|] == s[q + 1..];
      }
    }
  }

  lemma {:induction false} ReadKeepsNormal(c: Config, line: Line)
    requires ConfigOk(c) && LineOk(line)
    ensures ConfigOk(Read(c, line))
  {
    var r := Read(c, line);
    forall i | 0 <= i < |r.sections| ensures SectionOk(r.sections[i]) {
      if i < |c.sections| { assert SectionOk(c.sections[i]); }
    }
  }

  lemma {:induction false} ReadTextKeepsNormal(c: Config, text: string)
    requires ConfigOk(c)
    ensures ConfigOk(ReadText(c, text))
    decreases |text|
  {
    if text != "" {
      var n := ChunkLen(text);
      LineNormal(text[..n]);
      ReadKeepsNormal(c, ParseLine(text[..n]));
      ReadTextKeepsNormal(Read(c, ParseLine(text[..n])), text[n..]);
    }
  }

  /** Whatever the file holds, the parsed entries and names are in normal form. */
  lemma {:induction false} ParseIsNormal(text: string)
    ensures ConfigOk(Parse(text))
  {
    ReadTextKeepsNormal(EMPTY, text);
  }

  // ----- lookups -----

  /** The value of the first entry with the key. */
  function OptStr(kv: seq<Pair>, key: string): Option<string> {
    if kv == [] then None else if kv[0].key == key then Some(kv[0].val) else OptStr(kv[1..], key)
  }

  /** The values of all entries with the key, in order. */
  function OptAll(kv: seq<Pair>, key: string): seq<string> {
    if kv == [] then []
    else (if kv[0].key == key then [kv[0].val] else []) + OptAll(kv[1..], key)
  }

  lemma {:induction false} LookupAppend(a: seq<Pair>, b: seq<Pair>, key: string)
    ensures OptStr(a + b, key) == if OptStr(a, key).Some? then OptStr(a, key) else OptStr(b, key)
    ensures OptAll(a + b, key) == OptAll(a, key) + OptAll(b, key)
  {
    if a == [] {
      assert a + b == b;
    } else {
      assert (a + b)[1..] == a[1..] + b;
      LookupAppend(a[1..], b, key);
    }
  }

  lemma {:induction false} LookupAt(kv: seq<Pair>, key: string, i: nat)
    requires i <= |kv| && (i < |kv| ==> kv[i].key == key)
    requires forall k :: 0 <= k < i ==> kv[k].key != key
    ensures OptStr(kv, key) == if i < |kv| then Some(kv[i].val) else None
  {
    if i > 0 { LookupAt(kv[1..], key, i - 1); }
  }
}
