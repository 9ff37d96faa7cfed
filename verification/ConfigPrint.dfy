/** Printing a parsed config and reading it back: exactly when nothing is lost
    (save_config in src/main.c against cfg_load in src/config.c). */
module ConfigPrint {
  import opened ConfigText

  /** An entry as written, the key padded before its "=". */
  function PrintEntry(key: string, pad: string, val: string): string { key + pad + "= " + val + "\n" }

  function PrintPair(p: Pair): string { PrintEntry(p.key, " ", p.val) }

  function PrintPairs(kv: seq<Pair>): string {
    if kv == [] then "" else PrintPair(kv[0]) + PrintPairs(kv[1..])
  }

  function PrintHeader(name: string): string { "[" + name + "]\n" }

  function PrintSections(ss: seq<Section>): string {
    if ss == [] then ""
    else "\n" + (PrintHeader(ss[0].name) + (PrintPairs(ss[0].kv) + PrintSections(ss[1..])))
  }

  /** The sections the replay file carries over. */
  function Others(ss: seq<Section>): (r: seq<Section>)
    ensures forall i :: 0 <= i < |r| ==> r[i] in ss && r[i].name != "bench"
  {
    if ss == [] then []
    else if ss[0].name == "bench" then Others(ss[1..])
    else [ss[0]] + Others(ss[1..])
  }

  // ----- reading one printed line -----

  /** A line with its newline at the end and nowhere else. */
  predicate WholeLine(l: string) {
    l != "" && l[|l| - 1] == '\n' && forall i :: 0 <= i < |l| - 1 ==> l[i] != '\n'
  }

  lemma {:induction false} FirstChunk(l: string, rest: string)
    requires l != "" && l[|l| - 1] == '\n'
    ensures ChunkLen(l + rest) == ChunkLen(l)
  {
    FindIs(l + rest, '\n', Find(l, '\n'));
  }

  /** The first read of a text stops in its first line, whatever follows. */
  lemma {:induction false} ReadFirst(c: Config, l: string, rest: string)
    requires Open(c) && l != "" && l[|l| - 1] == '\n'
    ensures var n := ChunkLen(l);
            ReadText(c, l + rest) == ReadText(Read(c, ParseLine(l[..n])), l[n..] + rest)
  {
    var text, n := l + rest, ChunkLen(l);
    FirstChunk(l, rest);
    assert text[..n] == l[..n] && text[n..] == l[n..] + rest;
  }

  lemma {:induction false} WholeChunk(l: string)
    requires WholeLine(l)
    ensures ChunkLen(l) == if |l| <= LINE_MAX then |l| else LINE_MAX
  {
    FindIs(l, '\n', |l| - 1);
  }

  lemma {:induction false} ReadWhole(c: Config, l: string, rest: string)
    requires Open(c) && WholeLine(l) && |l| <= LINE_MAX
    ensures ReadText(c, l + rest) == ReadText(Read(c, ParseLine(l)), rest)
  {
    WholeChunk(l);
    ReadFirst(c, l, rest);
    assert l[..|l|] == l && l[|l|..] + rest == rest;
  }

  lemma {:induction false} PlainCStr(s: string)
    requires '\0' !in s
    ensures CStr(s) == s
  {
    FindIs(s, '\0', |s|);
  }

  lemma {:induction false} BlankLine(l: string)
    requires AllSpace(l, 0, |l|)
    ensures ParseLine(l) == Nothing
  {
    PlainCStr(l);
    CutIs(l, |l|);
    assert l[..|l|] == l;
    TrimIs(l, |l|, |l|);
  }

  /** A key, white space, "=", then anything: the key is read back and the rest trimmed. */
  lemma {:induction false} EntryFrom(s: string, k: string, pad: string, x: string)
    requires KeyOk(k) && AllSpace(pad, 0, |pad|) && s == k + pad + "=" + x
    ensures Classify(Trim(s)) == Entry(k, Trim(x))
  {
    var a, b := TrimParts(x);
    TrimPrefix(x, a, b);
    var w := if a < b then b else 0;
    TrimEntry(s, k, pad, x, w);
    var left := if k == "" then "" else k + pad;
    ClassifyEntry(Trim(s), left, x[..w]);
    TrimIs(left, 0, |k|);
    assert left[0..|k|] == k;
  }

  lemma {:induction false} TrimEntry(s: string, k: string, pad: string, x: string, w: nat)
    requires KeyOk(k) && AllSpace(pad, 0, |pad|) && s == k + pad + "=" + x
    requires w <= |x| && AllSpace(x, w, |x|) && (w > 0 ==> !IsSpace(x[w - 1]))
    ensures Trim(s) == (if k == "" then "" else k + pad) + "=" + x[..w]
  {
    var n := |k| + |pad| + 1;
    var i, j := if k == "" then |pad| else 0, n + w;
    forall m | j <= m < |s| ensures IsSpace(s[m]) {
      assert s[m] == x[m - n];
    }
    assert s[n - 1] == '=';
    assert w > 0 ==> s[j - 1] == x[w - 1];
    assert k != "" ==> s[0] == k[0];
    assert k == "" ==> forall m :: 0 <= m < |pad| ==> s[m] == pad[m];
    TrimIs(s, i, j);
    EntryMiddle(s, k, pad, x, w);
  }

  lemma {:induction false} EntryMiddle(s: string, k: string, pad: string, x: string, w: nat)
    requires s == k + pad + "=" + x && w <= |x|
    ensures var n := |k| + |pad| + 1; s[0..n + w] == k + pad + "=" + x[..w] && s[|k| + |pad|..n + w] == "=" + x[..w]
    ensures "" + "=" + x[..w] == "=" + x[..w]
  {
    var n := |k| + |pad| + 1;
    assert s[0..n + w] == k + pad + "=" + x[..w];
  }

  lemma {:induction false} TrimPrefix(x: string, a: nat, b: nat)
    requires TrimAt(x, a, b)
    ensures Trim(x[..if a < b then b else 0]) == Trim(x) == x[a..b]
  {
    TrimIs(x, a, b);
    if a < b {
      TrimIs(x[..b], a, b);
      assert x[..b][a..b] == x[a..b];
    } else {
      TrimIs("", 0, 0);
    }
  }

  lemma {:induction false} ClassifyEntry(t: string, left: string, right: string)
    requires t == left + "=" + right && '=' !in left && (left != "" ==> left[0] != '[')
    ensures Classify(t) == Entry(Trim(left), Trim(right))
  {
    assert t[|left|] == '=';
    FindIs(t, '=', |left|);
    assert t[..|left|] == left && t[|left| + 1..] == right;
  }

  /** A name a section line can hold, of any length that fits. */
  predicate NameText(n: string) {
    Plain(n) && ']' !in n && NoInnerComment(n) && |n| + 3 <= LINE_MAX
  }

  lemma {:induction false} HeaderLine(n: string)
    requires NameText(n)
    ensures ParseLine(PrintHeader(n)) == Header(Trim(n))
    ensures WholeLine(PrintHeader(n)) && |PrintHeader(n)| <= LINE_MAX
  {
    var l := PrintHeader(n);
    assert forall i :: 1 <= i <= |n| ==> l[i] == n[i - 1];
    PlainCStr(l);
    forall p | 0 <= p < |l| ensures !CommentStart(l, p) {
      if 2 <= p <= |n| { assert !CommentStart(n, p - 1); }
    }
    CutIs(l, |l|);
    assert l[..|l|] == l;
    var t := "[" + n + "]";
    TrimIs(l, 0, |t|);
    assert l[0..|t|] == t;
    FindIs(t, ']', |n| + 1);
    assert t[1..|n| + 1] == n;
  }

  // ----- printed entries -----

  /** Text that no line cuts short: no comment mark at its start or after white space. */
  predicate ValueText(v: string) {
    ValOk(v) && (v != "" ==> !IsMark(v[0]))
  }

  predicate Pad(pad: string) { forall i :: 0 <= i < |pad| ==> pad[i] == ' ' }

  /** An entry whose printed line reads back: its value does not start a comment, and the line up to
      its last character that is not white space fits the buffer. */
  predicate Readable(p: Pair) {
    if p.val == "" then |p.key| + 2 <= LINE_MAX else !IsMark(p.val[0]) && |p.key| + 3 + |p.val| <= LINE_MAX
  }

  /** The printed line after "key =". */
  function Tail(v: string): string { " " + v + "\n" }

  /** What the first read of a printed entry sees, whatever follows it. */
  function FirstLine(k: string, pad: string, v: string): Line {
    var l := PrintEntry(k, pad, v);
    ParseLine(l[..ChunkLen(l)])
  }

  lemma {:induction false} EntryParts(k: string, pad: string, v: string)
    requires KeyOk(k) && Pad(pad)
    ensures var l, h := PrintEntry(k, pad, v), |k| + |pad| + 1;
            && l == k + pad + "=" + Tail(v)
            && forall p :: 0 <= p < h ==> !CommentStart(l, p) && l[p] != '\0' && l[p] != '\n'
  {
    var l := PrintEntry(k, pad, v);
    assert l == k + pad + "=" + Tail(v);
    forall p | 0 <= p < |k| + |pad| + 1 ensures !CommentStart(l, p) && l[p] != '\0' && l[p] != '\n' {
      if p < |k| {
        assert l[p] == k[p] && !CommentStart(k, p);
      } else if p < |k| + |pad| {
        assert l[p] == pad[p - |k|];
      }
    }
  }

  /** The first read of a line reaches its "=" when that fits the buffer. */
  lemma {:induction false} EntryChunk(k: string, pad: string, v: string)
    requires KeyOk(k) && Pad(pad) && |k| + |pad| + 1 <= LINE_MAX
    ensures |k| + |pad| + 1 <= ChunkLen(PrintEntry(k, pad, v))
  {
    var l := PrintEntry(k, pad, v);
    EntryParts(k, pad, v);
    assert l[|l| - 1] == '\n';
  }

  lemma {:induction false} PrefixOf<T>(a: seq<T>, b: seq<T>, m: nat)
    requires m <= |b|
    ensures (a + b)[..|a| + m] == a + b[..m]
  {
  }

  /** What is left of it after the comment is cut: the key, and m characters of the rest. */
  lemma {:induction false} EntryCut(k: string, pad: string, v: string) returns (m: nat)
    requires KeyOk(k) && Pad(pad) && |k| + |pad| + 1 <= LINE_MAX
    ensures var l := PrintEntry(k, pad, v); var raw, h := l[..ChunkLen(l)], |k| + |pad| + 1;
            && m <= |Tail(v)| && h + m <= |raw| && (v != "" && IsMark(v[0]) ==> m <= 1)
            && CutComment(CStr(raw)) == k + pad + "=" + Tail(v)[..m]
  {
    var l, h := PrintEntry(k, pad, v), |k| + |pad| + 1;
    EntryParts(k, pad, v);
    EntryChunk(k, pad, v);
    var raw := l[..ChunkLen(l)];
    var seen := CStr(raw);
    var cut := CommentFrom(seen, 0);
    assert cut >= h by {
      if cut < h { assert CommentStart(seen, cut) ==> CommentStart(l, cut); }
    }
    m := cut - h;
    assert seen[..cut] == l[..cut];
    PrefixOf(k + pad + "=", Tail(v), m);
    if v != "" && IsMark(v[0]) && m > 1 {
      assert seen[h] == ' ' && seen[h + 1] == v[0];
      assert CommentStart(seen, h + 1);
    }
  }

  lemma {:induction false} TailBack(v: string, m: nat)
    requires m <= |Tail(v)|
    ensures Trim(Tail(v)[..m]) == v ==> v == "" || m >= 1 + |v|
    ensures Trimmed(v) && (v == "" || m >= 1 + |v|) ==> Trim(Tail(v)[..m]) == v
  {
    var t := Tail(v)[..m];
    var a, b := TrimParts(t);
    assert m > 0 ==> IsSpace(t[0]);
    if v == "" {
      TrimIs(t, |t|, |t|);
    } else if m >= 1 + |v| && Trimmed(v) {
      assert t[1] == v[0] && t[|v|] == v[|v| - 1];
      TrimIs(t, 1, 1 + |v|);
      assert forall k :: 0 <= k < |v| ==> t[1 + k] == v[k];
      assert t[1..1 + |v|] == v;
    }
  }

  /** A line with such a text is read up to the buffer's end with nothing cut. */
  lemma {:induction false} EntryUncut(k: string, pad: string, v: string)
    requires KeyOk(k) && Pad(pad) && |k| + |pad| + 1 <= LINE_MAX && ValueText(v)
    ensures var l := PrintEntry(k, pad, v); WholeLine(l) && CutComment(CStr(l[..ChunkLen(l)])) == l[..ChunkLen(l)]
  {
    var l, n := PrintEntry(k, pad, v), |k| + |pad| + 2;
    EntryParts(k, pad, v);
    forall p | 0 <= p < |l| ensures !CommentStart(l, p) && l[p] != '\0' && (p < |l| - 1 ==> l[p] != '\n') {
      if n <= p < n + |v| {
        assert l[p] == v[p - n];
        if n < p {
          assert l[p - 1] == v[p - 1 - n] && !CommentStart(v, p - n);
        }
      }
    }
    var raw := l[..ChunkLen(l)];
    PlainCStr(raw);
    forall p | 0 <= p < |raw| ensures !CommentStart(raw, p) {
      assert !CommentStart(l, p);
    }
    CutIs(raw, |raw|);
    assert raw[..|raw|] == raw;
  }

  /** A value of any text comes back exactly when it is trimmed, holds no line end and no comment start,
      and its line fits the buffer; its key comes back whatever the value. */
  lemma {:induction false} ValueBackIff(k: string, pad: string, v: string)
    requires KeyOk(k) && Pad(pad) && |k| + |pad| + 1 <= LINE_MAX
    ensures FirstLine(k, pad, v).Entry? && FirstLine(k, pad, v).key == k
    ensures FirstLine(k, pad, v).val == v <==> ValueText(v) && (v == "" || |k| + |pad| + 2 + |v| <= LINE_MAX)
  {
    var l := PrintEntry(k, pad, v);
    var raw := l[..ChunkLen(l)];
    var m := EntryCut(k, pad, v);
    var x := Tail(v)[..m];
    EntryFrom(k + pad + "=" + x, k, pad, x);
    LineNormal(raw);
    TailBack(v, m);
    if ValueText(v) && (v == "" || |k| + |pad| + 2 + |v| <= LINE_MAX) {
      EntryUncut(k, pad, v);
      WholeChunk(l);
      assert |k| + |pad| + 1 + m == ChunkLen(l);
    }
  }

  /** The first line read from a printed entry. */
  function FirstRead(p: Pair): Line { FirstLine(p.key, " ", p.val) }

  lemma {:induction false} FirstReadIs(p: Pair)
    requires PairOk(p)
    ensures |p.key| + 2 <= LINE_MAX ==> FirstRead(p).Entry? && FirstRead(p).key == p.key
    ensures |p.key| + 2 <= LINE_MAX ==> (FirstRead(p).val == p.val <==> Readable(p))
    ensures |p.key| + 2 > LINE_MAX ==> FirstRead(p) == Nothing && p.val == ""
  {
    if |p.key| + 2 <= LINE_MAX {
      ValueBackIff(p.key, " ", p.val);
    } else {
      PrintedIsWhole(p);
      WholeChunk(PrintPair(p));
      assert PrintPair(p)[..LINE_MAX] == p.key + " ";
      KeyAlone(p.key);
    }
  }

  lemma {:induction false} KeyAlone(k: string)
    requires KeyOk(k) && k != ""
    ensures ParseLine(k + " ") == Nothing
  {
    var raw := k + " ";
    PlainCStr(raw);
    forall p | 0 <= p < |raw| ensures !CommentStart(raw, p) {
      if p < |k| { assert !CommentStart(k, p); }
    }
    CutIs(raw, |raw|);
    assert raw[..|raw|] == raw;
    TrimIs(raw, 0, |k|);
    assert raw[0..|k|] == k;
    FindIs(k, '=', |k|);
  }

  lemma {:induction false} PrintedIsWhole(p: Pair)
    requires PairOk(p)
    ensures WholeLine(PrintPair(p)) && |PrintPair(p)| == |p.key| + |p.val| + 4 <= LINE_MAX + 3
  {
    var l := PrintPair(p);
    forall i | 0 <= i < |l| - 1 ensures l[i] != '\n' {
      if i < |p.key| {
        assert l[i] == p.key[i];
      } else if i >= |p.key| + 3 {
        assert l[i] == p.val[i - |p.key| - 3];
      }
    }
  }

  /** A line that opens at most a section with a short trimmed name. */
  predicate Small(line: Line) {
    line.Header? ==> Trimmed(line.name) && |line.name| <= 3
  }

  lemma {:induction false} HeaderFacts(raw: string)
    requires ParseLine(raw).Header?
    ensures Trimmed(ParseLine(raw).name) && |ParseLine(raw).name| <= |raw|
  {
    var cut := CutComment(CStr(raw));
    var a, b := TrimParts(cut);
    var s := Trim(cut);
    var inner := s[1..Find(s, ']')];
    var i, j := TrimParts(inner);
  }

  /** What the buffer leaves of an entry's line for the next read. */
  lemma {:induction false} Leftover(p: Pair)
    requires PairOk(p) && |PrintPair(p)| > LINE_MAX
    ensures var left := PrintPair(p)[LINE_MAX..];
            && WholeLine(left) && |left| <= 3 && Small(ParseLine(left))
            && (Readable(p) ==> ParseLine(left) == Nothing)
            && (|p.key| + 2 > LINE_MAX ==> ParseLine(left) == Entry("", ""))
  {
    var l := PrintPair(p);
    PrintedIsWhole(p);
    var left := l[LINE_MAX..];
    if ParseLine(left).Header? { HeaderFacts(left); }
    if Readable(p) { SpaceLeft(p); }
    if |p.key| + 2 > LINE_MAX {
      assert left == "= \n";
      LoneEquals();
    }
  }

  lemma {:induction false} SpaceLeft(p: Pair)
    requires PairOk(p) && Readable(p) && |PrintPair(p)| > LINE_MAX
    ensures ParseLine(PrintPair(p)[LINE_MAX..]) == Nothing
  {
    var l := PrintPair(p);
    var left := l[LINE_MAX..];
    forall i | 0 <= i < |left| ensures IsSpace(left[i]) {
      assert left[i] == l[LINE_MAX + i];
    }
    BlankLine(left);
  }

  lemma {:induction false} LoneEquals()
    ensures ParseLine("= \n") == Entry("", "")
  {
    var l := "= \n";
    PlainCStr(l);
    assert NoComment(l);
    CutIs(l, |l|);
    assert l[..|l|] == l;
    TrimIs(l, 0, 1);
    var t := l[0..1];
    assert t == "" + "=" + "";
    ClassifyEntry(t, "", "");
    TrimIs("", 0, 0);
  }

  /** An entry is read as its first line and what the buffer left of it. */
  lemma {:induction false} PairLines(c: Config, p: Pair, rest: string) returns (left: Line)
    requires Open(c) && PairOk(p)
    ensures ReadText(c, PrintPair(p) + rest) == ReadText(Read(Read(c, FirstRead(p)), left), rest)
    ensures Small(left) && (Readable(p) ==> left == Nothing)
    ensures |p.key| + 2 > LINE_MAX ==> left == Entry("", "")
  {
    var l := PrintPair(p);
    PrintedIsWhole(p);
    WholeChunk(l);
    if |l| <= LINE_MAX {
      ReadWhole(c, l, rest);
      assert l[..|l|] == l;
      left := Nothing;
    } else {
      Leftover(p);
      ReadFirst(c, l, rest);
      left := ParseLine(l[LINE_MAX..]);
      ReadWhole(Read(c, FirstRead(p)), l[LINE_MAX..], rest);
    }
  }

  /** A readable entry is read back as it was. */
  lemma {:induction false} ReadPair(c: Config, p: Pair, rest: string)
    requires Open(c) && PairOk(p) && Readable(p)
    ensures ReadText(c, PrintPair(p) + rest) == ReadText(Add(c, p.key, p.val), rest)
  {
    FirstReadIs(p);
    var left := PairLines(c, p, rest);
  }

  // ----- sections only grow -----

  ghost predicate Grows(c: Config, d: Config) {
    && |c.sections| <= |d.sections|
    && forall i :: 0 <= i < |c.sections| ==> d.sections[i].name == c.sections[i].name && c.sections[i].kv <= d.sections[i].kv
  }

  lemma {:induction false} GrowsTransitive(a: Config, b: Config, c: Config)
    requires Grows(a, b) && Grows(b, c)
    ensures Grows(a, c)
  {
  }

  lemma {:induction false} ReadLineGrows(c: Config, line: Line)
    requires Open(c)
    ensures Grows(c, Read(c, line))
  {
  }

  lemma {:induction false} ReadGrows(c: Config, text: string)
    requires Open(c)
    ensures Grows(c, ReadText(c, text))
    decreases |text|
  {
    if text != "" {
      var n := ChunkLen(text);
      var d := Read(c, ParseLine(text[..n]));
      ReadLineGrows(c, ParseLine(text[..n]));
      ReadGrows(d, text[n..]);
      GrowsTransitive(c, d, ReadText(d, text[n..]));
    }
  }

  /** Every printed entry leaves one behind, and an unreadable one leaves a different one. */
  lemma {:induction false} ReadAnyPair(c: Config, p: Pair, rest: string) returns (q: Pair)
    requires Open(c) && PairOk(p)
    ensures Grows(Add(c, q.key, q.val), ReadText(c, PrintPair(p) + rest)) && (q == p <==> Readable(p))
  {
    FirstReadIs(p);
    var left := PairLines(c, p, rest);
    var d := Read(c, FirstRead(p));
    var e := Read(d, left);
    q := if FirstRead(p).Entry? then Pair(p.key, FirstRead(p).val) else Pair("", "");
    if FirstRead(p).Entry? {
      ReadLineGrows(d, left);
    } else {
      assert d == c;
    }
    ReadGrows(e, rest);
    GrowsTransitive(Add(c, q.key, q.val), e, ReadText(e, rest));
  }

  /** An unreadable entry leaves another one in its place. */
  lemma {:induction false} ReadBadPair(c: Config, p: Pair, rest: string) returns (q: Pair)
    requires Open(c) && PairOk(p) && !Readable(p)
    ensures q != p && Grows(Add(c, q.key, q.val), ReadText(c, PrintPair(p) + rest))
  {
    q := ReadAnyPair(c, p, rest);
  }

  // ----- names read from printed text -----

  ghost predicate Tidy(ss: seq<Section>) {
    && (forall i :: 0 <= i < |ss| ==> Trimmed(ss[i].name))
    && (forall i, j :: 0 <= i < j < |ss| ==> ss[i].name != ss[j].name)
  }

  lemma {:induction false} ReadTidy(c: Config, line: Line)
    requires Open(c) && Tidy(c.sections)
    requires line.Header? ==> Trimmed(line.name) && |line.name| <= NAME_MAX
    ensures Tidy(Read(c, line).sections)
  {
    var d := Read(c, line);
    forall i | 0 <= i < |d.sections| ensures Trimmed(d.sections[i].name) {
      if i < |c.sections| { assert d.sections[i].name == c.sections[i].name; }
    }
  }

  /** Inside some section after the bench section, which is the first. */
  ghost predicate Apart(c: Config) {
    0 < c.cur < |c.sections| && c.sections[0].name == "bench"
  }

  /** What reading printed entries keeps. */
  ghost predicate Follows(c: Config, d: Config) {
    && Open(d) && Grows(c, d) && (Tidy(c.sections) ==> Tidy(d.sections))
    && (Apart(c) ==> Apart(d) && d.sections[0] == c.sections[0])
  }

  lemma {:induction false} FollowsTransitive(a: Config, b: Config, c: Config)
    requires Follows(a, b) && Follows(b, c)
    ensures Follows(a, c)
  {
    GrowsTransitive(a, b, c);
  }

  lemma {:induction false} SmallFollows(c: Config, line: Line)
    requires Open(c) && Small(line)
    ensures Follows(c, Read(c, line))
  {
    ReadLineGrows(c, line);
    if Tidy(c.sections) { ReadTidy(c, line); }
  }

  lemma {:induction false} PairFollows(c: Config, p: Pair, rest: string) returns (d: Config)
    requires Open(c) && PairOk(p)
    ensures Follows(c, d) && ReadText(c, PrintPair(p) + rest) == ReadText(d, rest)
  {
    FirstReadIs(p);
    var left := PairLines(c, p, rest);
    var e := Read(c, FirstRead(p));
    SmallFollows(c, FirstRead(p));
    SmallFollows(e, left);
    d := Read(e, left);
    FollowsTransitive(c, e, d);
  }

  lemma {:induction false} PairsFollow(c: Config, kv: seq<Pair>, rest: string) returns (d: Config)
    requires Open(c) && forall i :: 0 <= i < |kv| ==> PairOk(kv[i])
    ensures Follows(c, d) && ReadText(c, PrintPairs(kv) + rest) == ReadText(d, rest)
    decreases |kv|
  {
    PairsText(kv, rest);
    if kv == [] {
      d := c;
    } else {
      var more := PrintPairs(kv[1..]) + rest;
      var e := PairFollows(c, kv[0], more);
      d := PairsFollow(e, kv[1..], rest);
      FollowsTransitive(c, e, d);
    }
  }

  /** A blank line, then the section's own line. */
  lemma {:induction false} ReadHeader(c: Config, n: string, rest: string)
    requires Open(c) && NameOk(n)
    ensures ReadText(c, "\n" + (PrintHeader(n) + rest)) == ReadText(Enter(c, Trim(n)), rest)
  {
    BlankLine("\n");
    ReadWhole(c, "\n", PrintHeader(n) + rest);
    HeaderLine(n);
    ReadWhole(c, PrintHeader(n), rest);
  }

  /** One printed section: its own line, then its entries. */
  lemma {:induction false} ReadOneSection(c: Config, ss: seq<Section>) returns (d: Config)
    requires Open(c) && ss != [] && SectionOk(ss[0])
    ensures Follows(Enter(c, Trim(ss[0].name)), d)
    ensures ReadText(c, PrintSections(ss)) == ReadText(d, PrintSections(ss[1..]))
    ensures ss[0].kv == [] ==> d == Enter(c, Trim(ss[0].name))
  {
    var n, rest := ss[0].name, PrintSections(ss[1..]);
    ReadHeader(c, n, PrintPairs(ss[0].kv) + rest);
    d := PairsFollow(Enter(c, Trim(n)), ss[0].kv, rest);
    if ss[0].kv == [] {
      PairsText([], rest);
      d := Enter(c, Trim(n));
    }
  }

  lemma {:induction false} SectionsTidy(c: Config, ss: seq<Section>)
    requires Open(c) && Tidy(c.sections) && forall i :: 0 <= i < |ss| ==> SectionOk(ss[i])
    ensures Tidy(ReadText(c, PrintSections(ss)).sections)
    decreases |ss|
  {
    if ss != [] {
      var i, j := TrimParts(ss[0].name);
      ReadTidy(c, Header(Trim(ss[0].name)));
      var d := ReadOneSection(c, ss);
      SectionsTidy(d, ss[1..]);
    }
  }

  // ----- the bench section -----

  /** Only a section without entries may have a name that reads back as bench. */
  ghost predicate BenchApart(ss: seq<Section>) {
    forall i :: 0 <= i < |ss| ==> Trim(ss[i].name) != "bench" || ss[i].kv == []
  }

  lemma {:induction false} BenchUntouched(c: Config, ss: seq<Section>)
    requires Open(c) && c.sections[0].name == "bench" && BenchApart(ss)
    requires forall i :: 0 <= i < |ss| ==> SectionOk(ss[i])
    ensures |ReadText(c, PrintSections(ss)).sections| > 0 && ReadText(c, PrintSections(ss)).sections[0] == c.sections[0]
    decreases |ss|
  {
    if ss != [] {
      var e := Enter(c, Trim(ss[0].name));
      var d := ReadOneSection(c, ss);
      if Trim(ss[0].name) == "bench" {
        assert ss[0].kv == [];
      } else {
        assert Apart(e);
      }
      assert e.sections[0] == d.sections[0] == c.sections[0];
      BenchUntouched(d, ss[1..]);
    }
  }

  lemma {:induction false} BenchSectionAdds(c: Config, ss: seq<Section>)
    requires Open(c) && c.sections[0].name == "bench" && ss != [] && SectionOk(ss[0])
    requires Trim(ss[0].name) == "bench" && ss[0].kv != []
    ensures var end := ReadText(c, PrintSections(ss)).sections; |end| > 0 && |end[0].kv| > |c.sections[0].kv|
  {
    var kv, rest := ss[0].kv, PrintSections(ss[1..]);
    ReadHeader(c, ss[0].name, PrintPairs(kv) + rest);
    var e := Enter(c, "bench");
    PairsText(kv, rest);
    var q := ReadAnyPair(e, kv[0], PrintPairs(kv[1..]) + rest);
    assert e.cur == 0 && |Add(e, q.key, q.val).sections[0].kv| == |c.sections[0].kv| + 1;
  }

  lemma {:induction false} LaterBench(ss: seq<Section>)
    requires ss != [] && !BenchApart(ss) && !(Trim(ss[0].name) == "bench" && ss[0].kv != [])
    ensures !BenchApart(ss[1..])
  {
    var i :| 0 <= i < |ss| && Trim(ss[i].name) == "bench" && ss[i].kv != [];
    assert ss[1..][i - 1] == ss[i];
  }

  lemma {:induction false} BenchTouched(c: Config, ss: seq<Section>)
    requires Open(c) && c.sections[0].name == "bench" && !BenchApart(ss)
    requires forall i :: 0 <= i < |ss| ==> SectionOk(ss[i])
    ensures var end := ReadText(c, PrintSections(ss)).sections; |end| > 0 && |end[0].kv| > |c.sections[0].kv|
    decreases |ss|
  {
    if Trim(ss[0].name) == "bench" && ss[0].kv != [] {
      BenchSectionAdds(c, ss);
    } else {
      var d := ReadOneSection(c, ss);
      LaterBench(ss);
      ReadLineGrows(c, Header(Trim(ss[0].name)));
      GrowsTransitive(c, Enter(c, Trim(ss[0].name)), d);
      BenchTouched(d, ss[1..]);
    }
  }

  /** Reading printed sections leaves the bench section as it was exactly when no section with entries
      has a name that reads back as bench; a name cut to size can, by the blanks it ends in. */
  lemma {:induction false} BenchKeptIff(c: Config, ss: seq<Section>)
    requires Open(c) && c.sections[0].name == "bench"
    requires forall i :: 0 <= i < |ss| ==> SectionOk(ss[i])
    ensures |ReadText(c, PrintSections(ss)).sections| > 0
    ensures ReadText(c, PrintSections(ss)).sections[0] == c.sections[0] <==> BenchApart(ss)
  {
    if BenchApart(ss) { BenchUntouched(c, ss); } else { BenchTouched(c, ss); }
  }

  // ----- the round trip -----

  ghost predicate AllReadable(kv: seq<Pair>) {
    forall i :: 0 <= i < |kv| ==> Readable(kv[i])
  }

  /** The last section open, with its entries so far. */
  function Building(done: seq<Section>, name: string, kv: seq<Pair>): Config {
    Config(done + [Section(name, kv)], |done|)
  }

  lemma {:induction false} PairsText(kv: seq<Pair>, rest: string)
    ensures PrintPairs(kv) + rest == if kv == [] then rest else PrintPair(kv[0]) + (PrintPairs(kv[1..]) + rest)
  {
  }

  lemma {:induction false} ReadPairs(done: seq<Section>, name: string, acc: seq<Pair>, kv: seq<Pair>, rest: string)
    requires AllReadable(kv) && forall i :: 0 <= i < |kv| ==> PairOk(kv[i])
    ensures ReadText(Building(done, name, acc), PrintPairs(kv) + rest) == ReadText(Building(done, name, acc + kv), rest)
    decreases |kv|
  {
    if kv == [] {
      PairsText(kv, rest);
      assert acc + kv == acc;
    } else {
      var more := PrintPairs(kv[1..]) + rest;
      PairsText(kv, rest);
      Shift(acc, kv);
      ReadPair(Building(done, name, acc), kv[0], more);
      AddBuilding(done, name, acc, kv[0]);
      ReadPairs(done, name, acc + [kv[0]], kv[1..], rest);
    }
  }

  lemma {:induction false} Shift<T>(a: seq<T>, b: seq<T>)
    requires b != []
    ensures a + [b[0]] + b[1..] == a + b && (a + b)[|a|] == b[0]
  {
  }

  lemma {:induction false} NothingPlus<T>(b: seq<T>)
    ensures [] + b == b
  {
  }

  lemma {:induction false} AddBuilding(done: seq<Section>, name: string, acc: seq<Pair>, p: Pair)
    ensures Add(Building(done, name, acc), p.key, p.val) == Building(done, name, acc + [p])
  {
    assert Add(Building(done, name, acc), p.key, p.val).sections == Building(done, name, acc + [p]).sections;
  }

  lemma {:induction false} ReadBadPairs(done: seq<Section>, name: string, acc: seq<Pair>, kv: seq<Pair>, rest: string)
    requires !AllReadable(kv) && forall i :: 0 <= i < |kv| ==> PairOk(kv[i])
    ensures |ReadText(Building(done, name, acc), PrintPairs(kv) + rest).sections| > |done|
    ensures !(acc + kv <= ReadText(Building(done, name, acc), PrintPairs(kv) + rest).sections[|done|].kv)
    decreases |kv|
  {
    var c, more := Building(done, name, acc), PrintPairs(kv[1..]) + rest;
    PairsText(kv, rest);
    if Readable(kv[0]) {
      ReadPair(c, kv[0], more);
      AddBuilding(done, name, acc, kv[0]);
      Shift(acc, kv);
      assert !AllReadable(kv[1..]) by { LaterBad(kv); }
      ReadBadPairs(done, name, acc + [kv[0]], kv[1..], rest);
    } else {
      var q := ReadBadPair(c, kv[0], more);
      AddBuilding(done, name, acc, q);
      WrongEntryStays(done, name, acc, kv, q, ReadText(c, PrintPair(kv[0]) + more));
    }
  }

  lemma {:induction false} LaterBad(kv: seq<Pair>)
    requires kv != [] && Readable(kv[0]) && !AllReadable(kv)
    ensures !AllReadable(kv[1..])
  {
    var i :| 0 <= i < |kv| && !Readable(kv[i]);
    assert kv[1..][i - 1] == kv[i];
  }

  lemma {:induction false} WrongEntryStays(done: seq<Section>, name: string, acc: seq<Pair>, kv: seq<Pair>, q: Pair, end: Config)
    requires kv != [] && q != kv[0] && Grows(Building(done, name, acc + [q]), end)
    ensures |end.sections| > |done| && !(acc + kv <= end.sections[|done|].kv)
  {
    assert Building(done, name, acc + [q]).sections[|done|].kv == acc + [q];
    var got := end.sections[|done|].kv;
    assert got[|acc|] == (acc + [q])[|acc|];
    assert (acc + kv)[|acc|] == kv[0];
  }

  ghost predicate SectionsReadable(ss: seq<Section>) {
    forall i :: 0 <= i < |ss| ==> AllReadable(ss[i].kv)
  }

  /** A readable section is read back as it was. */
  lemma {:induction false} ReadSection(done: seq<Section>, cur: nat, ss: seq<Section>)
    requires cur < |done| && ss != [] && Tidy(done + ss) && SectionOk(ss[0]) && AllReadable(ss[0].kv)
    ensures ReadText(Config(done, cur), PrintSections(ss)) == ReadText(Config(done + [ss[0]], |done|), PrintSections(ss[1..]))
  {
    var s, rest := ss[0], PrintSections(ss[1..]);
    ReadHeader(Config(done, cur), s.name, PrintPairs(s.kv) + rest);
    EnterNew(done, cur, ss);
    NothingPlus(s.kv);
    ReadPairs(done, s.name, [], s.kv, rest);
  }

  /** The section at place k of what was read does not start with the entries of s. */
  ghost predicate Misses(end: seq<Section>, k: nat, s: Section) {
    k < |end| && !(s.kv <= end[k].kv)
  }

  /** An unreadable one is not. */
  lemma {:induction false} ReadBadSection(done: seq<Section>, cur: nat, ss: seq<Section>)
    requires cur < |done| && ss != [] && Tidy(done + ss) && SectionOk(ss[0]) && !AllReadable(ss[0].kv)
    ensures Misses(ReadText(Config(done, cur), PrintSections(ss)).sections, |done|, ss[0])
  {
    var s, rest := ss[0], PrintSections(ss[1..]);
    ReadHeader(Config(done, cur), s.name, PrintPairs(s.kv) + rest);
    EnterNew(done, cur, ss);
    NothingPlus(s.kv);
    ReadBadPairs(done, s.name, [], s.kv, rest);
  }

  /** The first i sections, when readable, are read back as they were. */
  lemma {:induction false} ReadSections(done: seq<Section>, cur: nat, ss: seq<Section>, i: nat) returns (at: nat)
    requires cur < |done| && i <= |ss| && Tidy(done + ss)
    requires forall k :: 0 <= k < i ==> SectionOk(ss[k]) && AllReadable(ss[k].kv)
    ensures at < |done| + i
    ensures ReadText(Config(done, cur), PrintSections(ss)) == ReadText(Config(done + ss[..i], at), PrintSections(ss[i..]))
  {
    if i == 0 {
      at := cur;
      assert done + ss[..0] == done && ss[0..] == ss;
    } else {
      at := ReadSections(done, cur, ss, i - 1);
      var more := done + ss[..i - 1];
      SectionsAt(done, ss, i - 1);
      ReadSection(more, at, ss[i - 1..]);
      at := |more|;
    }
  }

  lemma {:induction false} SectionsAt(done: seq<Section>, ss: seq<Section>, i: nat)
    requires i < |ss|
    ensures done + ss[..i] + ss[i..] == done + ss && ss[i..][0] == ss[i] && ss[i..][1..] == ss[i + 1..]
    ensures done + ss[..i] + [ss[i]] == done + ss[..i + 1]
  {
    assert ss[..i] + ss[i..] == ss;
    assert ss[..i] + [ss[i]] == ss[..i + 1];
  }

  lemma {:induction false} FirstUnreadable(ss: seq<Section>) returns (i: nat)
    requires !SectionsReadable(ss)
    ensures i < |ss| && !AllReadable(ss[i].kv) && forall k :: 0 <= k < i ==> AllReadable(ss[k].kv)
  {
    if AllReadable(ss[0].kv) {
      ReadableSplit(ss);
      i := FirstUnreadable(ss[1..]);
      forall k | 0 <= k < i + 1 ensures AllReadable(ss[k].kv) {
        if k > 0 { assert ss[k] == ss[1..][k - 1]; }
      }
      i := i + 1;
    } else {
      i := 0;
    }
  }

  lemma {:induction false} ReadBadSections(done: seq<Section>, cur: nat, ss: seq<Section>) returns (i: nat)
    requires cur < |done| && Tidy(done + ss) && !SectionsReadable(ss) && forall i :: 0 <= i < |ss| ==> SectionOk(ss[i])
    ensures i < |ss| && Misses(ReadText(Config(done, cur), PrintSections(ss)).sections, |done| + i, ss[i])
  {
    i := FirstUnreadable(ss);
    var at := ReadSections(done, cur, ss, i);
    SectionsAt(done, ss, i);
    ReadBadSection(done + ss[..i], at, ss[i..]);
  }

  lemma {:induction false} SectionDiffers(end: seq<Section>, ss: seq<Section>, i: nat)
    requires i < |ss| && Misses(end, 1 + i, ss[i])
    ensures end[1..] != ss
  {
    assert end[1..][i] == end[i + 1];
  }

  lemma {:induction false} ReadableSplit(ss: seq<Section>)
    requires ss != [] && AllReadable(ss[0].kv)
    ensures SectionsReadable(ss[1..]) <==> SectionsReadable(ss)
  {
    if SectionsReadable(ss[1..]) {
      forall i | 0 <= i < |ss| ensures AllReadable(ss[i].kv) {
        if i > 0 { assert ss[i] == ss[1..][i - 1]; }
      }
    }
  }

  lemma {:induction false} EnterNew(done: seq<Section>, cur: nat, ss: seq<Section>)
    requires cur < |done| && ss != [] && Tidy(done + ss) && NameOk(ss[0].name)
    ensures Enter(Config(done, cur), Trim(ss[0].name)) == Building(done, ss[0].name, [])
  {
    var all := done + ss;
    assert all[|done|] == ss[0];
    TrimOfTrimmed(ss[0].name);
    assert forall k :: 0 <= k < |done| ==> done[k].name == all[k].name;
  }

  lemma {:induction false} UntidyDiffers(end: seq<Section>, ss: seq<Section>)
    requires Tidy(end) && |end| > 0 && !Tidy(ss)
    ensures end[1..] != ss
  {
    assert Tidy(end[1..]);
  }

  /** Sections that can follow the bench section. */
  ghost predicate OtherSections(ss: seq<Section>) {
    forall i :: 0 <= i < |ss| ==> SectionOk(ss[i]) && ss[i].name != "bench"
  }

  lemma {:induction false} ReadableBack(bench: Section, ss: seq<Section>)
    requires bench.name == "bench" && OtherSections(ss) && Tidy(ss) && SectionsReadable(ss)
    ensures ReadText(Config([bench], 0), PrintSections(ss)).sections == [bench] + ss
  {
    var at := ReadSections([bench], 0, ss, |ss|);
    assert ss[..|ss|] == ss && ss[|ss|..] == [];
  }

  lemma {:induction false} UnreadableLost(bench: Section, ss: seq<Section>)
    requires bench.name == "bench" && OtherSections(ss) && Tidy(ss) && !SectionsReadable(ss)
    ensures |ReadText(Config([bench], 0), PrintSections(ss)).sections| > 0
    ensures ReadText(Config([bench], 0), PrintSections(ss)).sections[1..] != ss
  {
    var i := ReadBadSections([bench], 0, ss);
    SectionDiffers(ReadText(Config([bench], 0), PrintSections(ss)).sections, ss, i);
  }

  lemma {:induction false} UntidyLost(bench: Section, ss: seq<Section>)
    requires bench.name == "bench" && OtherSections(ss) && !Tidy(ss)
    ensures |ReadText(Config([bench], 0), PrintSections(ss)).sections| > 0
    ensures ReadText(Config([bench], 0), PrintSections(ss)).sections[1..] != ss
  {
    var start := Config([bench], 0);
    SectionsTidy(start, ss);
    ReadGrows(start, PrintSections(ss));
    UntidyDiffers(ReadText(start, PrintSections(ss)).sections, ss);
  }

  /** Printing the sections of a parsed file other than bench and reading them back, after any bench
      section, gives the same sections, keys and values in order exactly when every entry is readable
      and the section names are trimmed and distinct; and then the bench section is left alone. */
  lemma {:induction false} RoundTripIff(c: Config, bench: Section)
    requires ConfigOk(c) && bench.name == "bench"
    ensures var ss := Others(c.sections);
            var end := ReadText(Config([bench], 0), PrintSections(ss)).sections;
            && |end| > 0
            && (end[1..] == ss <==> Tidy(ss) && SectionsReadable(ss))
            && (Tidy(ss) && SectionsReadable(ss) ==> end[0] == bench)
  {
    var ss := Others(c.sections);
    assert OtherSections(ss);
    if !Tidy(ss) {
      UntidyLost(bench, ss);
    } else if SectionsReadable(ss) {
      ReadableBack(bench, ss);
    } else {
      UnreadableLost(bench, ss);
    }
  }

  // ----- accepted entries that are lost -----

  /** An entry with nothing around its "=" is read whatever its value starts with. */
  lemma {:induction false} TightEntry(k: string, v: string)
    requires KeyOk(k) && ValOk(v)
    ensures var l := k + "=" + v + "\n"; WholeLine(l) && ParseLine(l) == Entry(k, v)
  {
    var l, n := k + "=" + v + "\n", |k| + 1;
    forall p | 0 <= p < |l| ensures !CommentStart(l, p) && l[p] != '\0' && (p < |l| - 1 ==> l[p] != '\n') {
      if p < |k| {
        assert l[p] == k[p] && !CommentStart(k, p);
      } else if n <= p < n + |v| {
        assert l[p] == v[p - n];
        if n < p {
          assert l[p - 1] == v[p - 1 - n] && !CommentStart(v, p - n);
        }
      }
    }
    PlainCStr(l);
    CutIs(l, |l|);
    assert l[..|l|] == l;
    TightTail(k, v);
  }

  lemma {:induction false} TightTail(k: string, v: string)
    requires KeyOk(k) && ValOk(v)
    ensures Classify(Trim(k + "=" + v + "\n")) == Entry(k, v)
  {
    var x := v + "\n";
    assert k + "=" + v + "\n" == k + "" + "=" + x;
    EntryFrom(k + "" + "=" + x, k, "", x);
    TrimIs(x, 0, |v|);
    assert x[0..|v|] == v;
  }

  lemma {:induction false} OneEntryFile(n: string, k: string, v: string)
    requires NameText(n) && Trimmed(n) && n != "bench"
    requires KeyOk(k) && ValOk(v) && |k| + |v| + 2 <= LINE_MAX
    ensures Parse(PrintHeader(n) + (k + "=" + v + "\n")) == Building(EMPTY.sections, Truncate(n), [Pair(k, v)])
  {
    var start, entry := EMPTY, k + "=" + v + "\n";
    HeaderLine(n);
    TrimOfTrimmed(n);
    ReadWhole(start, PrintHeader(n), entry);
    TightEntry(k, v);
    var c1 := Building(start.sections, Truncate(n), []);
    assert Enter(start, n) == c1;
    ReadWhole(c1, entry, "");
    assert entry + "" == entry;
    AddBuilding(start.sections, Truncate(n), [], Pair(k, v));
    NothingPlus([Pair(k, v)]);
  }

  lemma {:induction false} OneOther(n: string, p: Pair)
    requires n != "bench"
    ensures Others(Building(EMPTY.sections, n, [p]).sections) == [Section(n, [p])]
  {
    var ss := Building(EMPTY.sections, n, [p]).sections;
    var rest := [Section(n, [p])];
    assert ss[1..] == rest && rest[1..] == [] && ss[0].name == "bench";
    assert Others(rest) == [rest[0]] + Others(rest[1..]);
  }

  lemma {:induction false} OneEntryLost(c: Config, n: string, p: Pair)
    requires ConfigOk(c) && c == Building(EMPTY.sections, n, [p]) && n != "bench" && !Readable(p)
    ensures ReadText(EMPTY, PrintSections([Section(n, [p])])).sections[1..] != [Section(n, [p])]
  {
    var ss := [Section(n, [p])];
    OneOther(n, p);
    RoundTripIff(c, EMPTY.sections[0]);
    assert !AllReadable(ss[0].kv) by {
      assert !Readable(ss[0].kv[0]);
    }
  }

  /** A value starting with a comment mark is accepted when no space stands before it, but printed
      after one, so the replay file loses it. */
  lemma {:induction false} CommentValueLost(n: string, k: string, v: string, c: Config)
    requires NameOk(n) && Trimmed(n) && n != "bench"
    requires KeyOk(k) && ValOk(v) && v != "" && IsMark(v[0]) && |k| + |v| + 2 <= LINE_MAX
    requires c == Parse(PrintHeader(n) + (k + "=" + v + "\n"))
    ensures Others(c.sections) == [Section(n, [Pair(k, v)])]
    ensures ReadText(EMPTY, PrintSections(Others(c.sections))).sections[1..] != Others(c.sections)
  {
    OneEntryFile(n, k, v);
    OneOther(n, Pair(k, v));
    ParseIsNormal(PrintHeader(n) + (k + "=" + v + "\n"));
    OneEntryLost(c, n, Pair(k, v));
  }

  // ----- a name that reads back as bench -----

  /** "bench" and as many blanks as a stored name can hold. */
  predicate PaddedBench(n: string) {
    |n| == NAME_MAX && n[..5] == "bench" && forall i :: 5 <= i < NAME_MAX ==> n[i] == ' '
  }

  lemma {:induction false} PaddedBenchName(n: string)
    requires PaddedBench(n)
    ensures n != "bench" && NameOk(n) && Trim(n) == "bench"
  {
    assert forall i :: 0 <= i < 5 ==> n[i] == n[..5][i];
    TrimIs(n, 0, 5);
    assert n[0..5] == n[..5];
  }

  /** A section name is cut after it is trimmed, so a file can hold such a name. */
  lemma {:induction false} PaddedBenchAccepted(n: string, k: string, v: string)
    requires PaddedBench(n) && KeyOk(k) && ValOk(v) && |k| + |v| + 2 <= LINE_MAX
    ensures Others(Parse(PrintHeader(n + "x") + (k + "=" + v + "\n")).sections) == [Section(n, [Pair(k, v)])]
  {
    var long := n + "x";
    PaddedBenchName(n);
    forall p | 1 <= p < |long| ensures !CommentStart(long, p) {
      if p < |n| { assert !CommentStart(n, p); }
    }
    assert Truncate(long) == n;
    assert long[0] == 'b' && long[5] == ' ';
    OneEntryFile(long, k, v);
    OneOther(n, Pair(k, v));
  }

  /** Printed and read again, its entries are added to the bench section. */
  lemma {:induction false} PaddedBenchReenters(bench: Section, n: string, p: Pair)
    requires bench.name == "bench" && PaddedBench(n) && PairOk(p) && Readable(p)
    ensures ReadText(Config([bench], 0), PrintSections([Section(n, [p])])).sections == [Section("bench", bench.kv + [p])]
  {
    var ss, c := [Section(n, [p])], Config([bench], 0);
    assert ss[1..] == [] && [p][1..] == [];
    PaddedBenchName(n);
    ReadHeader(c, n, PrintPairs([p]) + PrintSections([]));
    PairsText([p], "");
    PairsText([], "");
    ReadPair(c, p, "");
    assert Add(c, p.key, p.val).sections == [Section("bench", bench.kv + [p])];
  }
}
