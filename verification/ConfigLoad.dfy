/** Loading a config file the way the source does: one line buffer, cut in place with NULs, feeding
    sections that grow (src/config.c). Every method is tied to the functions of ConfigText. */
module ConfigLoad {
  import opened Wrappers
  import opened ConfigText

  /** From position at the buffer holds the C string s. */
  ghost predicate Holds(buf: seq<char>, at: nat, s: string) {
    && at + |s| < |buf| && buf[at + |s|] == '\0'
    && forall i :: 0 <= i < |s| ==> buf[at + i] == s[i] && s[i] != '\0'
  }

  /** The two buffers differ at most between i and j. */
  ghost predicate SameOutside(a: seq<char>, b: seq<char>, i: nat, j: nat) {
    |a| == |b| && forall k :: 0 <= k < |a| && !(i <= k < j) ==> a[k] == b[k]
  }

  method Strlen(line: array<char>, at: nat, ghost s: string) returns (n: nat)
    requires Holds(line[..], at, s)
    ensures n == |s|
  {
    n := 0;
    assert forall i :: 0 <= i < |s| ==> s[i] == line[at + i] && s[i] != '\0';
    while line[at + n] != '\0'
      invariant n <= |s| && (n < |s| ==> s[n] == line[at + n])
      decreases |s| - n
    {
      n := n + 1;
    }
  }

  /** The position of the first c, or none. */
  method Strchr(line: array<char>, at: nat, c: char, ghost s: string) returns (found: bool, p: nat)
    requires Holds(line[..], at, s) && c != '\0'
    ensures found <==> Find(s, c) < |s|
    ensures found ==> p == at + Find(s, c)
  {
    p := at;
    while line[p] != '\0' && line[p] != c
      invariant at <= p <= at + |s|
      invariant forall k :: 0 <= k < p - at ==> s[k] != c
      decreases at + |s| - p
    {
      assert line[..][p] == line[p] && p - at < |s| ==> line[p] == s[p - at];
      p := p + 1;
    }
    found := line[p] != '\0';
    assert p - at < |s| ==> line[..][at + (p - at)] == s[p - at];
    FindIs(s, c, p - at);
  }

  method Strdup(line: array<char>, at: nat, ghost s: string) returns (r: string)
    requires Holds(line[..], at, s)
    ensures r == s
  {
    var n := Strlen(line, at, s);
    r := line[at..at + n];
    assert forall i :: 0 <= i < n ==> r[i] == line[..][at + i];
  }

  /** Reads one line, or as much of it as the buffer holds. */
  method Fgets(line: array<char>, text: string, pos: nat) returns (n: nat)
    requires line.Length == LINE_MAX + 1 && pos < |text|
    modifies line
    ensures n == ChunkLen(text[pos..]) && n > 0 && pos + n <= |text|
    ensures Holds(line[..], 0, CStr(text[pos..pos + n]))
  {
    n := 0;
    var more := true;
    ghost var rest := text[pos..];
    while more && n < LINE_MAX && pos + n < |text|
      invariant n <= LINE_MAX && pos + n <= |text|
      invariant forall k :: 0 <= k < n ==> line[k] == rest[k]
      invariant forall k :: 0 <= k < n - 1 ==> rest[k] != '\n'
      invariant more ==> forall k :: 0 <= k < n ==> rest[k] != '\n'
      invariant !more ==> n > 0 && rest[n - 1] == '\n'
      decreases LINE_MAX - n, more
    {
      line[n] := text[pos + n];
      more := text[pos + n] != '\n';
      n := n + 1;
    }
    line[n] := '\0';
    if !more {
      FindIs(rest, '\n', n - 1);
    }
    assert n == ChunkLen(rest);
    var chunk := text[pos..pos + n];
    assert forall k :: 0 <= k < n ==> chunk[k] == rest[k];
    var z := Find(chunk, '\0');
    assert line[..][z] == '\0';
  }

  /** Ends the line at its comment. */
  method CutInPlace(line: array<char>, ghost s: string)
    requires Holds(line[..], 0, s)
    modifies line
    ensures Holds(line[..], 0, CutComment(s))
  {
    var p := 0;
    while line[p] != '\0'
      invariant p <= |s| && line[..] == old(line[..])
      invariant forall k :: 0 <= k < p ==> !CommentStart(s, k)
      decreases |s| - p
    {
      assert line[p] == line[..][0 + p] && (p < |s| ==> line[p] == s[p]);
      assert p > 0 ==> line[p - 1] == line[..][0 + (p - 1)] == s[p - 1];
      if IsMark(line[p]) && (p == 0 || IsSpace(line[p - 1])) {
        line[p] := '\0';
        break;
      }
      p := p + 1;
    }
    CutAt(s, p);
    assert forall i :: 0 <= i < p ==> line[..][0 + i] == s[i];
  }

  lemma {:induction false} CutAt(s: string, p: nat)
    requires p <= |s| && (p < |s| ==> CommentStart(s, p))
    requires forall k :: 0 <= k < p ==> !CommentStart(s, k)
    ensures CutComment(s) == s[..p]
  {
    forall k | 0 <= k < p ensures !CommentStart(s[..p], k) {
      assert !CommentStart(s, k);
    }
    CutIs(s, p);
  }

  /** Ends the string, which starts with no white space, after its last other character. */
  method CutTail(line: array<char>, at: nat, ghost s: string)
    requires Holds(line[..], at, s) && s != "" && !IsSpace(s[0])
    modifies line
    ensures |Trim(s)| <= |s| && Holds(line[..], at, Trim(s))
    ensures SameOutside(old(line[..]), line[..], at, at + |s|)
  {
    var n := Strlen(line, at, s);
    var e := at + n - 1;
    assert forall k :: 0 <= k < |s| ==> s[k] == line[at + k] && s[k] != '\0';
    while e > at && IsSpace(line[e])
      invariant at <= e < at + |s|
      invariant forall k :: 0 <= k < line.Length && !(e < k < at + |s|) ==> line[k] == old(line[..])[k]
      invariant line[e + 1] == '\0'
      invariant forall k :: 0 <= k <= e - at ==> s[k] == line[at + k]
      invariant AllSpace(s, e + 1 - at, |s|)
    {
      line[e] := '\0';
      e := e - 1;
    }
    assert s[e - at] == line[at + (e - at)];
    TrimIs(s, 0, e + 1 - at);
  }

  /** Skips leading white space and ends the string after its last other character. */
  method TrimInPlace(line: array<char>, at: nat, ghost s: string) returns (start: nat)
    requires Holds(line[..], at, s)
    modifies line
    ensures at <= start && start + |Trim(s)| <= at + |s| && Holds(line[..], start, Trim(s))
    ensures SameOutside(old(line[..]), line[..], at, at + |s|)
  {
    start := at;
    assert forall k :: 0 <= k < |s| ==> s[k] == line[at + k] && s[k] != '\0';
    while line[start] != '\0' && IsSpace(line[start])
      invariant at <= start <= at + |s| && line[..] == old(line[..])
      invariant AllSpace(s, 0, start - at)
      decreases at + |s| - start
    {
      assert line[start] == line[at + (start - at)];
      start := start + 1;
    }
    ghost var i := start - at;
    assert i < |s| ==> s[i] == line[at + i];
    if line[start] == '\0' {
      TrimIs(s, |s|, |s|);
    } else {
      ghost var t := s[i..];
      TrimSkips(s, i);
      assert forall k :: 0 <= k < |t| ==> t[k] == line[start + k];
      CutTail(line, start, t);
    }
  }

  lemma {:induction false} TrimSkips(s: string, i: nat)
    requires i < |s| && AllSpace(s, 0, i) && !IsSpace(s[i])
    ensures Trim(s) == Trim(s[i..])
  {
    var t := s[i..];
    var a, b := TrimParts(t);
    forall k | i + b <= k < |s| ensures IsSpace(s[k]) {
      assert IsSpace(t[k - i]);
    }
    TrimIs(s, i + a, i + b);
    assert t[a..b] == s[i + a..i + b];
  }

  class CfgFile {
    var sections: seq<Section>
    var cur: nat

    ghost function Value(): Config
      reads this
    {
      Config(sections, cur)
    }

    constructor ()
      ensures Value() == EMPTY
    {
      sections := [Section("bench", [])];
      cur := 0;
    }

    /** Finds the section by its exact name, or appends one with the name cut to fit. */
    method FileSection(name: string)
      modifies this
      ensures Value() == Enter(old(Value()), name)
    {
      var i := 0;
      while i < |sections| && sections[i].name != name
        invariant 0 <= i <= |sections| && sections == old(sections)
        invariant forall k :: 0 <= k < i ==> sections[k].name != name
      {
        i := i + 1;
      }
      if i == |sections| {
        sections := sections + [Section(Truncate(name), [])];
      }
      cur := i;
    }

    method SectionAdd(key: string, val: string)
      requires Open(Value())
      modifies this
      ensures Value() == Add(old(Value()), key, val)
    {
      var s := sections[cur];
      sections := sections[cur := Section(s.name, s.kv + [Pair(key, val)])];
    }

    method TakeHeader(line: array<char>, s: nat, ghost t: string)
      requires Open(Value()) && Holds(line[..], s, t) && t != "" && t[0] == '['
      modifies this, line
      ensures Value() == Read(old(Value()), Classify(t))
    {
      var found, e := Strchr(line, s, ']', t);
      if found {
        ghost var inner := t[1..e - s];
        assert forall k :: 0 <= k < |inner| ==> inner[k] == line[s + 1 + k] && inner[k] != '\0';
        line[e] := '\0';
        var start := TrimInPlace(line, s + 1, inner);
        var name := Strdup(line, start, Trim(inner));
        FileSection(name);
      }
    }

    method TakeEntry(line: array<char>, s: nat, ghost t: string)
      requires Open(Value()) && Holds(line[..], s, t) && t != "" && t[0] != '['
      modifies this, line
      ensures Value() == Read(old(Value()), Classify(t))
    {
      var found, q := Strchr(line, s, '=', t);
      if found {
        ghost var left, right := t[..q - s], t[q - s + 1..];
        assert forall k :: 0 <= k < |left| ==> left[k] == line[s + k] && left[k] != '\0';
        assert forall k :: 0 <= k < |right| ==> right[k] == line[q + 1 + k] && right[k] != '\0';
        line[q] := '\0';
        var keyAt := TrimInPlace(line, s, left);
        assert Holds(line[..], q + 1, right);
        var valAt := TrimInPlace(line, q + 1, right);
        assert Holds(line[..], keyAt, Trim(left));
        var key := Strdup(line, keyAt, Trim(left));
        var val := Strdup(line, valAt, Trim(right));
        SectionAdd(key, val);
      }
    }

    /** Reads and takes the line at pos, and returns its length. */
    method ReadLine(line: array<char>, text: string, pos: nat) returns (n: nat)
      requires Open(Value()) && line.Length == LINE_MAX + 1 && pos < |text|
      modifies this, line
      ensures n == ChunkLen(text[pos..]) && n > 0 && pos + n <= |text|
      ensures Value() == Read(old(Value()), ParseLine(text[pos..pos + n]))
    {
      n := Fgets(line, text, pos);
      ghost var raw := CStr(text[pos..pos + n]);
      CutInPlace(line, raw);
      ghost var cut := CutComment(raw);
      var s := TrimInPlace(line, 0, cut);
      ghost var t := Trim(cut);
      assert t != "" ==> line[s + 0] == t[0];
      if line[s] == '[' {
        TakeHeader(line, s, t);
      } else if line[s] != '\0' {
        TakeEntry(line, s, t);
      }
    }
  }

  /** What is left of the text from pos takes the state c to the goal. */
  ghost predicate LeadsTo(c: Config, text: string, pos: nat, goal: Config) {
    pos <= |text| && Open(c) && ReadText(c, text[pos..]) == goal
  }

  lemma {:induction false} ReadStep(c: Config, text: string, pos: nat, n: nat, goal: Config)
    requires LeadsTo(c, text, pos, goal) && pos < |text| && n == ChunkLen(text[pos..])
    ensures LeadsTo(Read(c, ParseLine(text[pos..pos + n])), text, pos + n, goal)
  {
    var rest := text[pos..];
    assert rest[..n] == text[pos..pos + n] && rest[n..] == text[pos + n..];
  }

  lemma {:induction false} ReadEnds(c: Config, text: string)
    requires Open(c)
    ensures LeadsTo(EMPTY, text, 0, Parse(text))
    ensures LeadsTo(c, text, |text|, c)
  {
    assert text[0..] == text;
  }

  method Step(c: CfgFile, line: array<char>, text: string, pos: nat, ghost goal: Config) returns (next: nat)
    requires LeadsTo(c.Value(), text, pos, goal) && pos < |text| && line.Length == LINE_MAX + 1
    modifies c, line
    ensures pos < next && LeadsTo(c.Value(), text, next, goal)
  {
    ghost var chunk := ChunkLen(text[pos..]);
    ghost var after := Read(c.Value(), ParseLine(text[pos..pos + chunk]));
    ghost var at := pos + chunk;
    ReadStep(c.Value(), text, pos, chunk, goal);
    var n := c.ReadLine(line, text, pos);
    next := pos + n;
    assert next == at && c.Value() == after;
  }

  /** Loading computes the parse of the file's text. */
  method Load(text: string) returns (c: CfgFile)
    ensures fresh(c) && c.Value() == Parse(text)
  {
    c := new CfgFile();
    var line := new char[LINE_MAX + 1];
    var pos := 0;
    ghost var goal := Parse(text);
    ReadEnds(c.Value(), text);
    while pos < |text|
      invariant fresh(c) && fresh(line) && line.Length == LINE_MAX + 1
      invariant LeadsTo(c.Value(), text, pos, goal)
      decreases |text| - pos
    {
      pos := Step(c, line, text, pos, goal);
    }
    ReadEnds(c.Value(), text);
  }

  // ----- lookups -----

  /** The first entry with the key. */
  method KvOptStr(kv: seq<Pair>, key: string) returns (r: Option<string>)
    ensures r == OptStr(kv, key)
  {
    var i := 0;
    while i < |kv| && kv[i].key != key
      invariant 0 <= i <= |kv|
      invariant forall k :: 0 <= k < i ==> kv[k].key != key
    {
      i := i + 1;
    }
    LookupAt(kv, key, i);
    r := if i < |kv| then Some(kv[i].val) else None;
  }

  /** The first max entries with the key, in order. */
  method KvOptAll(kv: seq<Pair>, key: string, max: nat) returns (out: seq<string>)
    ensures out == if |OptAll(kv, key)| <= max then OptAll(kv, key) else OptAll(kv, key)[..max]
  {
    out := [];
    var i := 0;
    while i < |kv| && |out| < max
      invariant 0 <= i <= |kv| && |out| <= max
      invariant OptAll(kv, key) == out + OptAll(kv[i..], key)
    {
      if kv[i].key == key {
        out := out + [kv[i].val];
      }
      i := i + 1;
    }
  }
}
