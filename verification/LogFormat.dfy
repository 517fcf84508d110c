/**
 The logfmt lines of the log: a reader gets back the fields that were written.
 */
module LogFormat {
  import opened Common

  const SPECIAL: set<char> := {'\\', '"', '\n', '\r', '\t'}

  predicate IsQuoting(c: char) {
    c <= ' ' || c == '=' || c == '"'
  }

  function EscapeRune(c: char): string {
    if c == '\\' || c == '"' then ['\\', c]
    else if c == '\n' then "\\n"
    else if c == '\r' then "\\r"
    else if c == '\t' then "\\t"
    else [c]
  }

  function EscapeRunes(s: string): string {
    if s == "" then "" else EscapeRune(s[0]) + EscapeRunes(s[1..])
  }

  predicate NeedsQuotes(s: string) {
    exists c :: c in s && IsQuoting(c)
  }

  function Escaped(s: string): string {
    if NeedsQuotes(s) then "\"" + EscapeRunes(s) + "\"" else EscapeRunes(s)
  }

  predicate NeedsEscape(s: string) {
    exists c :: c in s && c in SPECIAL
  }

  lemma NeedsNext(s: string, c: char)
    ensures NeedsQuotes(s + [c]) <==> NeedsQuotes(s) || IsQuoting(c)
    ensures NeedsEscape(s + [c]) <==> NeedsEscape(s) || c in SPECIAL
  {
    hide IsQuoting;
    assert forall d :: d in s + [c] <==> d in s || d == c;
  }

  lemma NeedsNothing()
    ensures !NeedsQuotes("") && !NeedsEscape("")
  {}

  lemma {:induction false} NothingToEscape(s: string)
    requires forall c | c in s :: c !in SPECIAL
    ensures EscapeRunes(s) == s
  {
    if s != "" {
      assert s[0] in s;
      NothingToEscape(s[1..]);
    }
  }

  lemma StartsWithoutQuote(s: string)
    ensures s != "" ==> EscapeRunes(s) != "" && EscapeRunes(s)[0] != '"'
  {}

  // A value is put into quotes exactly if it has a blank, an equals sign or a quote; one without any of these
  // and without a backslash is written as it is.
  ghost predicate IsQuotedRight(s: string, form: string) {
    && (form != "" && form[0] == '"' <==> exists c :: c in s && (c <= ' ' || c == '=' || c == '"'))
    && ((forall c | c in s :: c > ' ' && c != '=' && c != '"' && c != '\\') ==> form == s)
  }

  lemma EscapedExactly(s: string)
    ensures IsQuotedRight(s, Escaped(s))
  {
    StartsWithoutQuote(s);
    hide EscapeRunes;
    assert s == "" ==> EscapeRunes(s) == "" by {
      NothingToEscape("");
    }
    if forall c | c in s :: c > ' ' && c != '=' && c != '"' && c != '\\' {
      NothingToEscape(s);
    }
  }

  lemma WritesRune(e: string, s: string, i: nat)
    requires i < |s|
    ensures e + EscapeRunes(s[i..]) == e + EscapeRune(s[i]) + EscapeRunes(s[i + 1..])
  {
    assert s[i..][1..] == s[i + 1..];
    hide EscapeRune;
  }

  lemma NoRunes()
    ensures EscapeRunes("") == ""
  {}

  lemma Unneeded(s: string)
    requires !NeedsEscape(s)
    ensures EscapeRunes(s) == s
  {
    NothingToEscape(s);
  }

  method EscapeString(s: string) returns (res: string)
    ensures res == Escaped(s)
    ensures IsQuotedRight(s, res)
  {
    EscapedExactly(s);
    NeedsNothing();
    NoRunes();
    hide IsQuotedRight, NeedsQuotes, NeedsEscape, EscapeRunes, IsQuoting, EscapeRune;
    var needsQuotes, needsEscape := false, false;
    for i := 0 to |s|
      invariant needsQuotes == NeedsQuotes(s[..i]) && needsEscape == NeedsEscape(s[..i])
    {
      var c := s[i];
      assert s[..i + 1] == s[..i] + [c];
      NeedsNext(s[..i], c);
      if IsQuoting(c) {
        needsQuotes := true;
      }
      if c in SPECIAL {
        needsEscape := true;
      }
    }
    assert s[..|s|] == s;
    if !needsEscape && !needsQuotes {
      Unneeded(s);
      return s;
    }
    var e := "\"";
    for i := 0 to |s|
      invariant e + EscapeRunes(s[i..]) == "\"" + EscapeRunes(s)
    {
      WritesRune(e, s, i);
      e := e + EscapeRune(s[i]);
    }
    assert s[|s|..] == "" && e + "" == e;
    e := e + "\"";
    res := if needsQuotes then e else e[1..|e| - 1];
  }

  // ---------- Reading a value ----------

  function Unescape(c: char): char {
    if c == 'n' then '\n' else if c == 'r' then '\r' else if c == 't' then '\t' else c
  }

  // A value and what follows it.
  type Read = Option<(string, string)>

  function Prepend(c: char, r: Read): Read {
    match r
    case None => None
    case Some((value, rest)) => Some(([c] + value, rest))
  }

  // A quoted value ends with the first quote that has no backslash before it.
  function ReadQuoted(t: string): (r: Read)
    ensures r.Some? ==> |r.value.1| < |t|
  {
    if t == "" then None
    else if t[0] == '"' then Some(("", t[1..]))
    else if t[0] == '\\' then if |t| == 1 then None else Prepend(Unescape(t[1]), ReadQuoted(t[2..]))
    else Prepend(t[0], ReadQuoted(t[1..]))
  }

  // Any other value ends before the next blank.
  function ReadPlain(t: string): (r: Read)
    ensures r.Some? ==> |r.value.1| <= |t|
  {
    if t == "" || t[0] <= ' ' then Some(("", t))
    else if t[0] == '\\' then if |t| == 1 then None else Prepend(Unescape(t[1]), ReadPlain(t[2..]))
    else Prepend(t[0], ReadPlain(t[1..]))
  }

  function ReadValue(t: string): (r: Read)
    ensures r.Some? ==> |r.value.1| <= |t|
  {
    if t != "" && t[0] == '"' then ReadQuoted(t[1..]) else ReadPlain(t)
  }

  lemma ReadRune(c: char, tail: string)
    ensures ReadQuoted(EscapeRune(c) + tail) == Prepend(c, ReadQuoted(tail))
    ensures !IsQuoting(c) ==> ReadPlain(EscapeRune(c) + tail) == Prepend(c, ReadPlain(tail))
  {
    assert (EscapeRune(c) + tail)[|EscapeRune(c)|..] == tail;
  }

  lemma Associative(a: string, b: string, c: string)
    ensures a + b + c == a + (b + c)
  {}

  lemma {:induction false} ReadQuotedRunes(s: string, rest: string)
    ensures ReadQuoted(EscapeRunes(s) + ("\"" + rest)) == Some((s, rest))
  {
    if s == "" {
      assert EscapeRunes(s) + ("\"" + rest) == "\"" + rest;
      assert ("\"" + rest)[1..] == rest;
    } else {
      hide ReadQuoted, EscapeRune;
      ReadQuotedRunes(s[1..], rest);
      ReadRune(s[0], EscapeRunes(s[1..]) + ("\"" + rest));
      Associative(EscapeRune(s[0]), EscapeRunes(s[1..]), "\"" + rest);
      assert [s[0]] + s[1..] == s;
    }
  }

  lemma {:induction false} ReadPlainRunes(s: string, rest: string)
    requires !NeedsQuotes(s) && (rest == "" || rest[0] <= ' ')
    ensures ReadPlain(EscapeRunes(s) + rest) == Some((s, rest))
  {
    if s == "" {
      assert EscapeRunes(s) + rest == rest;
    } else {
      hide ReadPlain, EscapeRune, IsQuoting;
      assert s[0] in s;
      ReadPlainRunes(s[1..], rest);
      ReadRune(s[0], EscapeRunes(s[1..]) + rest);
      Associative(EscapeRune(s[0]), EscapeRunes(s[1..]), rest);
      assert [s[0]] + s[1..] == s;
    }
  }

  lemma FirstRune(s: string)
    requires !NeedsQuotes(s)
    ensures if s == "" then EscapeRunes(s) == "" else EscapeRunes(s)[0] != '"'
  {
    assert s != "" ==> s[0] in s;
  }

  // Whatever follows an escaped value, as long as it starts with a blank, the value reads back.
  lemma ReadEscaped(s: string, rest: string)
    requires rest == "" || rest[0] <= ' '
    ensures ReadValue(Escaped(s) + rest) == Some((s, rest))
  {
    hide EscapeRunes, ReadQuoted, ReadPlain, IsQuoting, NeedsQuotes;
    if NeedsQuotes(s) {
      assert (Escaped(s) + rest)[1..] == EscapeRunes(s) + ("\"" + rest);
      ReadQuotedRunes(s, rest);
    } else {
      ReadPlainRunes(s, rest);
      FirstRune(s);
    }
  }

  lemma EscapingIsInjective(s: string, s': string)
    requires Escaped(s) == Escaped(s')
    ensures s == s'
  {
    ReadEscaped(s, "");
    ReadEscaped(s', "");
  }

  lemma {:induction false} EscapedRunesStayOnTheLine(s: string)
    ensures forall c | c in EscapeRunes(s) :: c !in {'\n', '\r', '\t'}
    ensures forall c | c in EscapeRunes(s) && (c <= ' ' || c == '=') :: c in s
  {
    if s != "" {
      EscapedRunesStayOnTheLine(s[1..]);
    }
  }

  // An escaped value never breaks the line, and shows a blank or an equals sign only inside quotes.
  lemma EscapedStaysOnTheLine(s: string)
    ensures forall c | c in Escaped(s) :: c !in {'\n', '\r', '\t'}
    ensures forall c | c in Escaped(s) && (c <= ' ' || c == '=') ::
              |Escaped(s)| >= 2 && Escaped(s)[0] == '"' && Escaped(s)[|Escaped(s)| - 1] == '"'
  {
    EscapedRunesStayOnTheLine(s);
  }

  // ---------- Reading a line ----------

  datatype Field = Field(key: string, value: string)

  function Blanks(n: nat): (s: string)
    ensures |s| == n && forall c | c in s :: c == ' '
  {
    seq(n, _ => ' ')
  }

  function SkipBlanks(t: string): (r: string)
    ensures |r| <= |t|
  {
    if t != "" && t[0] == ' ' then SkipBlanks(t[1..]) else t
  }

  function ReadKey(t: string): (r: Read)
    ensures r.Some? ==> |r.value.1| < |t|
  {
    if t == "" then None else if t[0] == '=' then Some(("", t[1..])) else Prepend(t[0], ReadKey(t[1..]))
  }

  // The fields of a line, up to its newline.
  function ReadFields(line: string): Option<seq<Field>>
    decreases |line|
  {
    var t := SkipBlanks(line);
    if t == "" then None
    else if t[0] == '\n' then Some([])
    else match ReadKey(t)
      case None => None
      case Some((key, text)) => match ReadValue(text)
        case None => None
        case Some((value, rest)) => match ReadFields(rest)
          case None => None
          case Some(fields) => Some([Field(key, value)] + fields)
  }

  // Keys are written as they are.
  predicate IsReadable(key: string) {
    '=' !in key && '\n' !in key && (key == "" || key[0] != ' ')
  }

  // A field with n blanks before it.
  function Chunk(n: nat, f: Field): string {
    Blanks(n) + f.key + "=" + Escaped(f.value)
  }

  function Chunks(blanks: seq<nat>, fields: seq<Field>): string
    requires |blanks| == |fields|
  {
    if |fields| == 0 then "" else Chunk(blanks[0], fields[0]) + Chunks(blanks[1..], fields[1..])
  }

  lemma {:induction false} ChunksAppend(blanks: seq<nat>, fields: seq<Field>, n: nat, f: Field)
    requires |blanks| == |fields|
    ensures Chunks(blanks + [n], fields + [f]) == Chunks(blanks, fields) + Chunk(n, f)
  {
    if |fields| == 0 {
    } else {
      hide Chunk;
      ChunksAppend(blanks[1..], fields[1..], n, f);
      Associative(Chunk(blanks[0], fields[0]), Chunks(blanks[1..], fields[1..]), Chunk(n, f));
      assert (blanks + [n])[1..] == blanks[1..] + [n];
      assert (fields + [f])[1..] == fields[1..] + [f];
    }
  }

  lemma {:induction false} SkipsBlanks(n: nat, t: string)
    requires t == "" || t[0] != ' '
    ensures SkipBlanks(Blanks(n) + t) == t
  {
    if n == 0 {
      assert Blanks(n) + t == t;
    } else {
      SkipsBlanks(n - 1, t);
      assert (Blanks(n) + t)[1..] == Blanks(n - 1) + t;
    }
  }

  lemma {:induction false} ReadsKey(key: string, rest: string)
    requires '=' !in key
    ensures ReadKey(key + "=" + rest) == Some((key, rest))
  {
    if key == "" {
      assert key + "=" + rest == "=" + rest;
    } else {
      ReadsKey(key[1..], rest);
      assert (key + "=" + rest)[1..] == key[1..] + "=" + rest;
      assert [key[0]] + key[1..] == key;
    }
  }

  lemma ReadsChunk(n: nat, f: Field, rest: string)
    requires IsReadable(f.key) && rest != "" && rest[0] <= ' '
    ensures ReadFields(Chunk(n, f) + rest) ==
            match ReadFields(rest) case None => None case Some(fields) => Some([f] + fields)
  {
    var text := Escaped(f.value) + rest;
    var t := f.key + "=" + text;
    assert Chunk(n, f) + rest == Blanks(n) + t;
    assert t[0] == if f.key == "" then '=' else f.key[0];
    assert f.key != "" ==> f.key[0] in f.key;
    SkipsBlanks(n, t);
    ReadsKey(f.key, text);
    ReadEscaped(f.value, rest);
  }

  lemma StartsWithBlank(blanks: seq<nat>, fields: seq<Field>)
    requires |blanks| == |fields| && (|blanks| > 0 ==> blanks[0] > 0)
    ensures (Chunks(blanks, fields) + "\n")[0] <= ' '
  {}

  lemma {:induction false} ReadsChunks(blanks: seq<nat>, fields: seq<Field>)
    requires |blanks| == |fields|
    requires forall i | 1 <= i < |blanks| :: blanks[i] > 0
    requires forall f | f in fields :: IsReadable(f.key)
    ensures ReadFields(Chunks(blanks, fields) + "\n") == Some(fields)
  {
    if |fields| == 0 {
      assert Chunks(blanks, fields) + "\n" == "\n";
    } else {
      hide Chunk, ReadFields, IsReadable;
      ReadsChunks(blanks[1..], fields[1..]);
      var rest := Chunks(blanks[1..], fields[1..]) + "\n";
      StartsWithBlank(blanks[1..], fields[1..]);
      ReadsChunk(blanks[0], fields[0], rest);
      Associative(Chunk(blanks[0], fields[0]), Chunks(blanks[1..], fields[1..]), "\n");
      assert [fields[0]] + fields[1..] == fields;
    }
  }

  lemma {:induction false} ChunksStayOnTheLine(blanks: seq<nat>, fields: seq<Field>)
    requires |blanks| == |fields|
    requires forall f | f in fields :: IsReadable(f.key)
    ensures '\n' !in Chunks(blanks, fields)
  {
    if |fields| > 0 {
      EscapedStaysOnTheLine(fields[0].value);
      ChunksStayOnTheLine(blanks[1..], fields[1..]);
    }
  }

  lemma WritesChunk(blanks: seq<nat>, fields: seq<Field>, n: nat, f: Field)
    requires |blanks| == |fields|
    ensures Chunks(blanks, fields) + Blanks(n) + f.key + "=" + Escaped(f.value) == Chunks(blanks + [n], fields + [f])
  {
    hide Chunks, Escaped, Blanks;
    ChunksAppend(blanks, fields, n, f);
    assert Chunks(blanks, fields) + Blanks(n) + f.key + "=" + Escaped(f.value) == Chunks(blanks, fields) + Chunk(n, f);
  }

  lemma NothingWritten()
    ensures Chunks([], []) + Blanks(0) == ""
  {}

  lemma MoreBlanks(text: string, n: nat, m: nat)
    ensures text + Blanks(n) + Blanks(m) == text + Blanks(n + m)
    ensures text + Blanks(n) + " " == text + Blanks(n + 1)
    ensures text + Blanks(0) == text
  {
    assert Blanks(n) + Blanks(m) == Blanks(n + m);
    assert Blanks(n) + " " == Blanks(n + 1);
  }

  function PaddingOf(fieldPadding: map<string, nat>, k: string): nat {
    if k in fieldPadding then fieldPadding[k] else 0
  }

  // The greatest width of a key's values: the one known before, or that of one of the fields.
  function Width(fieldPadding: map<string, nat>, fields: seq<Field>, k: string): nat {
    if |fields| == 0 then PaddingOf(fieldPadding, k)
    else
      var f, width := fields[|fields| - 1], Width(fieldPadding, fields[..|fields| - 1], k);
      if f.key == k && |Escaped(f.value)| > width then |Escaped(f.value)| else width
  }

  // What field i leaves of the width of its key.
  function Gap(fieldPadding: map<string, nat>, fields: seq<Field>, i: nat): (gap: nat)
    requires i < |fields|
  {
    assert fields[..i + 1][..i] == fields[..i];
    Width(fieldPadding, fields[..i + 1], fields[i].key) - |Escaped(fields[i].value)|
  }

  // Each field starts one blank behind the column of the one before it, which is as wide as the greatest
  // value of its key so far.
  ghost predicate IsAligned(blanks: seq<nat>, fieldPadding: map<string, nat>, fields: seq<Field>) {
    && |blanks| <= |fields|
    && forall i | 0 <= i < |blanks| :: blanks[i] == if i == 0 then 0 else 1 + Gap(fieldPadding, fields, i - 1)
  }

  ghost predicate IsAlignedLine(line: string, fieldPadding: map<string, nat>, fields: seq<Field>) {
    exists blanks :: |blanks| == |fields| && IsAligned(blanks, fieldPadding, fields) && line == Chunks(blanks, fields) + "\n"
  }

  method Widen(fieldPadding: map<string, nat>, k: string, length: nat)
      returns (padding: nat, fieldPadding': map<string, nat>)
    ensures padding == if PaddingOf(fieldPadding, k) < length then length else PaddingOf(fieldPadding, k)
    ensures forall j :: PaddingOf(fieldPadding', j) == if j == k then padding else PaddingOf(fieldPadding, j)
  {
    padding, fieldPadding' := if k in fieldPadding then fieldPadding[k] else 0, fieldPadding;
    if padding < length {
      padding := length;
      fieldPadding' := fieldPadding'[k := padding];
    }
  }

  lemma Widened(fieldPadding: map<string, nat>, fields: seq<Field>, i: nat, before: map<string, nat>, padding: nat, after: map<string, nat>)
    requires i < |fields|
    requires forall k :: PaddingOf(before, k) == Width(fieldPadding, fields[..i], k)
    requires var k, length := fields[i].key, |Escaped(fields[i].value)|;
             && padding == (if PaddingOf(before, k) < length then length else PaddingOf(before, k))
             && forall j :: PaddingOf(after, j) == if j == k then padding else PaddingOf(before, j)
    ensures forall k :: PaddingOf(after, k) == Width(fieldPadding, fields[..i + 1], k)
    ensures padding == |Escaped(fields[i].value)| + Gap(fieldPadding, fields, i)
  {
    hide Escaped, PaddingOf;
    assert fields[..i + 1][..i] == fields[..i];
  }

  // A line shows its fields in aligned columns, and the widths are kept for the lines to come; if the keys are
  // readable it is one line, and reads back as the fields written.
  method Logfmt(ctx: seq<Field>, fieldPadding: map<string, nat>) returns (line: string, fieldPadding': map<string, nat>)
    ensures IsAlignedLine(line, fieldPadding, ctx)
    ensures forall k :: PaddingOf(fieldPadding', k) == Width(fieldPadding, ctx, k)
    ensures (forall f | f in ctx :: IsReadable(f.key)) ==>
              ReadFields(line) == Some(ctx) && '\n' !in line[..|line| - 1]
    ensures line != "" && line[|line| - 1] == '\n'
  {
    hide Chunks, Chunk, Escaped, IsReadable, ReadFields, Blanks, Gap, Width, PaddingOf;
    line, fieldPadding' := "", fieldPadding;
    NothingWritten();
    NoWidths(fieldPadding);
    ghost var blanks: seq<nat>, pending: nat := [], 0;
    for i := 0 to |ctx|
      invariant |blanks| == i && line == Chunks(blanks, ctx[..i]) + Blanks(pending)
      invariant pending == if i == 0 || i == |ctx| then 0 else Gap(fieldPadding, ctx, i - 1)
      invariant IsAligned(blanks, fieldPadding, ctx)
      invariant forall k :: PaddingOf(fieldPadding', k) == Width(fieldPadding, ctx[..i], k)
    {
      ghost var before, paddings := Chunks(blanks, ctx[..i]), fieldPadding';
      MoreBlanks(before, pending, 0);
      if i != 0 {
        line := line + " ";
        pending := pending + 1;
      }
      var k := ctx[i].key;
      var v := EscapeString(ctx[i].value);
      var padding;
      padding, fieldPadding' := Widen(fieldPadding', k, |v|);
      Widened(fieldPadding, ctx, i, paddings, padding, fieldPadding');
      line := line + k + "=" + v;
      WritesChunk(blanks, ctx[..i], pending, ctx[i]);
      assert ctx[..i + 1] == ctx[..i] + [ctx[i]];
      blanks, pending := blanks + [pending], 0;
      MoreBlanks(line, 0, 0);
      if i < |ctx| - 1 {
        line := line + Blanks(padding - |v|);
        pending := padding - |v|;
      }
    }
    MoreBlanks(Chunks(blanks, ctx), 0, 0);
    assert ctx[..|ctx|] == ctx && line == Chunks(blanks, ctx);
    line := line + "\n";
    if forall f | f in ctx :: IsReadable(f.key) {
      ReadsChunks(blanks, ctx);
      ChunksStayOnTheLine(blanks, ctx);
      assert line[..|line| - 1] == Chunks(blanks, ctx);
    }
  }

  lemma NoWidths(fieldPadding: map<string, nat>)
    ensures forall k :: PaddingOf(fieldPadding, k) == Width(fieldPadding, [], k)
  {}
}
