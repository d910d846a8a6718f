/** The vendored filesystem server's head and tail readers. Both read a file in chunks of at most
    1024 bytes; what they return does not depend on where the chunks fall. */
module LineReaders {

  const CHUNK_SIZE: nat := 1024

  /** text.split('\n'). */
  function Split(s: string): (lines: seq<string>)
    ensures |lines| == Newlines(s) + 1
  {
    if s == "" then [""] else Prepend(s[0], Split(s[1..]))
  }

  function Prepend(c: char, lines: seq<string>): (r: seq<string>)
    requires lines != []
    ensures |r| == |lines| + if c == '\n' then 1 else 0
  {
    if c == '\n' then [""] + lines else [[c] + lines[0]] + lines[1..]
  }

  /** The last line of xs and the first of ys become one. */
  function Glue(xs: seq<string>, ys: seq<string>): seq<string>
    requires xs != [] && ys != []
  {
    xs[..|xs| - 1] + [xs[|xs| - 1] + ys[0]] + ys[1..]
  }

  /** lines.join('\n'). */
  function Join(lines: seq<string>): string {
    if lines == [] then ""
    else if |lines| == 1 then lines[0]
    else lines[0] + "\n" + Join(lines[1..])
  }

  function Newlines(s: string): nat {
    if s == "" then 0 else (if s[0] == '\n' then 1 else 0) + Newlines(s[1..])
  }

  /** normalizeLineEndings: every CR LF becomes LF. */
  function Normalize(s: string): string {
    if s == "" then ""
    else if |s| >= 2 && s[0] == '\r' && s[1] == '\n' then "\n" + Normalize(s[2..])
    else [s[0]] + Normalize(s[1..])
  }

  function First(lines: seq<string>, n: int): seq<string> {
    if n <= 0 then [] else if n < |lines| then lines[..n] else lines
  }

  /** lines.slice(-n) for positive n. */
  function Last(lines: seq<string>, n: nat): seq<string> {
    if n < |lines| then lines[|lines| - n..] else lines
  }

  function WithoutTrailingEmpty(lines: seq<string>): seq<string> {
    if lines != [] && lines[|lines| - 1] == "" then lines[..|lines| - 1] else lines
  }

  // ---- What normalizing drops ----

  /** A carriage return right before a line feed. */
  predicate Dropped(s: string, i: nat) { i + 1 < |s| && s[i] == '\r' && s[i + 1] == '\n' }

  /** The places from i on that are kept, in order, and what is there. */
  ghost predicate KeptFrom(s: string, i: nat, at: seq<nat>, t: string) {
    && |at| == |t| && (forall j, k | 0 <= j < k < |at| :: at[j] < at[k])
    && (forall k: nat :: k in at <==> i <= k < |s| && !Dropped(s, k))
    && forall j | 0 <= j < |at| :: at[j] < |s| && t[j] == s[at[j]]
  }

  function KeptPlaces(s: string, i: nat): seq<nat>
    decreases |s| - i
  {
    if i >= |s| then [] else (if Dropped(s, i) then [] else [i]) + KeptPlaces(s, i + 1)
  }

  lemma KeptHere(s: string, i: nat, at: seq<nat>, t: string)
    requires i < |s| && KeptFrom(s, i + 1, at, t)
    ensures if Dropped(s, i) then KeptFrom(s, i, at, t) else KeptFrom(s, i, [i] + at, [s[i]] + t)
  {
    assert forall j | 0 <= j < |at| :: at[j] in at;
  }

  lemma {:induction false} NormalizedFrom(s: string, i: nat)
    requires i <= |s|
    ensures KeptFrom(s, i, KeptPlaces(s, i), Normalize(s[i..]))
    decreases |s| - i
  {
    if i < |s| {
      assert s[i..][1..] == s[i + 1..];
      NormalizedFrom(s, i + 1);
      KeptHere(s, i, KeptPlaces(s, i + 1), Normalize(s[i + 1..]));
      if Dropped(s, i) {
        assert s[i..][2..] == s[i + 2..] && s[i + 1..][1..] == s[i + 2..];
      }
    }
  }

  /** Normalizing drops the carriage returns right before line feeds, and keeps everything else in its order. */
  lemma NormalizeExactly(s: string)
    ensures exists at :: KeptFrom(s, 0, at, Normalize(s))
  {
    NormalizedFrom(s, 0);
    assert s[0..] == s;
  }

  // ---- Splitting into lines ----

  lemma {:induction false} SplitOneLine(s: string)
    requires '\n' !in s
    ensures Split(s) == [s] && Newlines(s) == 0
  {
    if s != "" {
      SplitOneLine(s[1..]);
      assert s == [s[0]] + s[1..];
    }
  }

  lemma GlueLast(lines: seq<string>, x: string, ys: seq<string>)
    requires ys != []
    ensures Glue(lines + [x], ys) == lines + [x + ys[0]] + ys[1..]
  {
    assert (lines + [x])[..|lines|] == lines;
  }

  lemma GlueUnder(lines: seq<string>, x: string, ys: seq<string>)
    requires ys != []
    ensures Glue(lines + [x], ys) == lines + Glue([x], ys)
  {
    GlueLast(lines, x, ys);
    GlueLast([], x, ys);
    assert [] + [x] == [x];
  }

  lemma GlueEmpty(ys: seq<string>)
    requires ys != []
    ensures Glue([""], ys) == ys
  {
    assert "" + ys[0] == ys[0];
    GlueLast([], "", ys);
    assert [] + [""] == [""];
  }

  lemma PrependConcat(c: char, a: seq<string>, b: seq<string>)
    requires a != []
    ensures Prepend(c, a + b) == Prepend(c, a) + b
  {
    assert (a + b)[1..] == a[1..] + b;
  }

  lemma GluePrepend(c: char, xs: seq<string>, ys: seq<string>)
    requires xs != [] && ys != []
    ensures Glue(Prepend(c, xs), ys) == Prepend(c, Glue(xs, ys))
  {
    var k := |xs| - 1;
    assert xs == xs[..k] + [xs[k]];
    if k > 0 {
      GlueOntoMore(c, xs[..k], xs[k], ys);
    } else {
      GlueOntoOne(c, xs[k], ys);
    }
  }

  lemma GlueOntoMore(c: char, init: seq<string>, x: string, ys: seq<string>)
    requires init != [] && ys != []
    ensures Glue(Prepend(c, init + [x]), ys) == Prepend(c, Glue(init + [x], ys))
  {
    var rest := [x + ys[0]] + ys[1..];
    GlueLast(init, x, ys);
    GlueLast(Prepend(c, init), x, ys);
    PrependConcat(c, init, [x]);
    PrependConcat(c, init, rest);
    assert init + [x + ys[0]] + ys[1..] == init + rest;
    assert Prepend(c, init) + [x + ys[0]] + ys[1..] == Prepend(c, init) + rest;
  }

  lemma GlueOntoOne(c: char, x: string, ys: seq<string>)
    requires ys != []
    ensures Glue(Prepend(c, [x]), ys) == Prepend(c, Glue([x], ys))
  {
    GlueLast([], x, ys);
    assert [] + [x] == [x];
    assert Glue([x], ys) == [x + ys[0]] + ys[1..];
    if c == '\n' {
      GlueLast([""], x, ys);
    } else {
      GlueLast([], [c] + x, ys);
      assert [] + [[c] + x] == [[c] + x];
      assert [c] + (x + ys[0]) == ([c] + x) + ys[0];
    }
  }

  /** The lines of a text cut in two. */
  lemma {:induction false} SplitOfConcat(a: string, b: string)
    ensures Split(a + b) == Glue(Split(a), Split(b))
    ensures Newlines(a + b) == Newlines(a) + Newlines(b)
  {
    if a == "" {
      assert a + b == b;
      GlueEmpty(Split(b));
    } else {
      var c, rest := a[0], a[1..];
      SplitOfConcat(rest, b);
      assert (a + b)[1..] == rest + b;
      GluePrepend(c, Split(rest), Split(b));
    }
  }

  lemma SplitAround(a: string, b: string)
    ensures Split(a + "\n" + b) == Split(a) + Split(b)
  {
    var tail, lines := "\n" + b, Split(a);
    SplitOfConcat(a, tail);
    assert a + "\n" + b == a + tail;
    assert tail[1..] == b;
    var k := |lines| - 1;
    assert lines == lines[..k] + [lines[k]];
    GlueLast(lines[..k], lines[k], [""] + Split(b));
    assert lines[k] + "" == lines[k];
  }

  lemma {:induction false} JoinOfSplit(s: string)
    ensures Join(Split(s)) == s
    ensures forall l | l in Split(s) :: '\n' !in l
  {
    if s != "" {
      JoinOfSplit(s[1..]);
      assert s == [s[0]] + s[1..];
      JoinPrepended(s[0], Split(s[1..]));
    }
  }

  lemma JoinPrepended(c: char, lines: seq<string>)
    requires lines != [] && forall l | l in lines :: '\n' !in l
    ensures Join(Prepend(c, lines)) == [c] + Join(lines)
    ensures forall l | l in Prepend(c, lines) :: '\n' !in l
  {
    assert lines == [lines[0]] + lines[1..];
    if c != '\n' && |lines| > 1 {
      assert Prepend(c, lines)[1..] == lines[1..];
    }
  }

  lemma {:induction false} SplitOfJoin(lines: seq<string>)
    requires lines != [] && forall l | l in lines :: '\n' !in l
    ensures Split(Join(lines)) == lines
  {
    SplitOneLine(lines[0]);
    if |lines| > 1 {
      SplitOfJoin(lines[1..]);
      SplitAround(lines[0], Join(lines[1..]));
    }
  }

  /** The lines of s are the one way to write s as newline-free pieces with newlines in between. */
  lemma SplitIsTheDivision(s: string, lines: seq<string>)
    ensures lines == Split(s) <==> lines != [] && (forall l | l in lines :: '\n' !in l) && Join(lines) == s
  {
    JoinOfSplit(s);
    if lines != [] && (forall l | l in lines :: '\n' !in l) {
      SplitOfJoin(lines);
    }
  }

  // ---- The tail ----

  predicate StartsCrLf(s: string) { |s| >= 2 && s[0] == '\r' && s[1] == '\n' }

  lemma NormalizeCrLf(s: string)
    requires StartsCrLf(s)
    ensures Normalize(s) == "\n" + Normalize(s[2..]) == Normalize(s[1..])
  {
    assert s[1..][1..] == s[2..] && s[1..][0] == '\n';
  }

  lemma NormalizeOther(s: string)
    requires s != "" && !StartsCrLf(s)
    ensures Normalize(s) == [s[0]] + Normalize(s[1..])
  {
  }

  /** Cutting a text anywhere, even between CR and LF, leaves the normal form of the rest intact:
      it still ends the normal form of the whole. */
  lemma {:induction false} NormalizeEndsWith(q: string, t: string) returns (p: string)
    ensures Normalize(q + t) == p + Normalize(t)
  {
    var s := q + t;
    if q == "" {
      assert s == t;
      return "";
    }
    assert s[1..] == q[1..] + t;
    var rest := NormalizeEndsWith(q[1..], t);
    if StartsCrLf(s) {
      NormalizeCrLf(s);
      p := rest;
    } else {
      NormalizeOther(s);
      p := [q[0]] + rest;
      assert [q[0]] + (rest + Normalize(t)) == p + Normalize(t);
    }
  }

  lemma {:induction false} NormalizeKeepsNewlines(s: string)
    ensures Newlines(Normalize(s)) == Newlines(s)
  {
    if |s| >= 2 && s[0] == '\r' && s[1] == '\n' {
      NormalizeKeepsNewlines(s[2..]);
      assert s[1..][1..] == s[2..];
    } else if s != "" {
      NormalizeKeepsNewlines(s[1..]);
    }
  }

  lemma LastOfGlue(xs: seq<string>, ys: seq<string>, n: nat)
    requires xs != [] && n < |ys|
    ensures Last(Glue(xs, ys), n) == Last(ys, n)
  {
  }

  /** A suffix with n newlines holds the last n lines. */
  lemma LastLinesOfSuffix(q: string, t: string, n: nat)
    requires 0 < n <= Newlines(t)
    ensures Last(Split(Normalize(q + t)), n) == Last(Split(Normalize(t)), n)
  {
    var p := NormalizeEndsWith(q, t);
    NormalizeKeepsNewlines(t);
    LastOfGlue(Split(p), Split(Normalize(t)), n);
    SplitOfConcat(p, Normalize(t));
  }

  function TailLines(file: string, n: int): string {
    if n <= 0 then "" else Join(Last(Split(Normalize(file)), n))
  }

  function Smaller(a: nat, b: nat): nat { if a < b then a else b }

  /** The text tailFile gathers from position backwards, in front of what it has: short(p) is how many bytes, at most
      those asked for, the read at p delivers. */
  function Gathered(file: string, n: int, short: nat -> nat, position: nat, text: string): string
    requires position <= |file|
    decreases position
  {
    if position == 0 || Newlines(text) >= n then text
    else
      var from := position - Smaller(CHUNK_SIZE, position);
      var got := Smaller(short(from), position - from);
      if got == 0 then text else Gathered(file, n, short, from, file[from..from + got] + text)
  }

  /** Every read tailFile makes from position backwards delivers all it asks for. */
  predicate FullReads(file: string, n: int, short: nat -> nat, position: nat, text: string)
    requires position <= |file|
    decreases position
  {
    if position == 0 || Newlines(text) >= n then true
    else
      var from := position - Smaller(CHUNK_SIZE, position);
      short(from) >= position - from && FullReads(file, n, short, from, file[from..position] + text)
  }

  /** tailFile: chunks are read backwards from the end until n newlines have been seen. */
  method TailFile(file: string, n: int, short: nat -> nat) returns (r: string)
    ensures r == TailText(file, n, short)
    ensures FullReads(file, n, short, |file|, "") ==> r == TailLines(file, n)
  {
    var position := |file|;
    var text, newlines := "", 0;
    while position > 0 && newlines < n
      invariant 0 <= position <= |file| && newlines == Newlines(text)
      invariant Gathered(file, n, short, position, text) == Gathered(file, n, short, |file|, "")
    {
      var size := if position < CHUNK_SIZE then position else CHUNK_SIZE;
      var from := position - size;
      var bytesRead := Smaller(short(from), size);
      if bytesRead == 0 {
        break;
      }
      position := from;
      var chunk := file[position..position + bytesRead];
      SplitOfConcat(chunk, text);
      text := chunk + text;
      for i := 0 to |chunk|
        invariant newlines + Newlines(chunk[i..]) == Newlines(text)
      {
        assert chunk[i..][1..] == chunk[i + 1..];
        if chunk[i] == '\n' {
          newlines := newlines + 1;
        }
      }
    }
    if n <= 0 {
      return "";
    }
    assert text == Gathered(file, n, short, |file|, "");
    r := Join(Last(Split(Normalize(text)), n));
    if FullReads(file, n, short, |file|, "") {
      FullReadsFromEnd(file, n, short);
    }
  }

  /** Full reads gather a suffix of the file that holds its last n lines. */
  lemma {:induction false} FullReadsSuffice(file: string, n: nat, short: nat -> nat, position: nat, text: string)
    requires position <= |file| && text == file[position..] && n > 0
    requires FullReads(file, n, short, position, text)
    ensures Last(Split(Normalize(Gathered(file, n, short, position, text))), n) == Last(Split(Normalize(file)), n)
    decreases position
  {
    if position == 0 {
      assert text == file;
    } else if Newlines(text) >= n {
      LastLinesOfSuffix(file[..position], text, n);
      assert file == file[..position] + text;
    } else {
      var from := position - Smaller(CHUNK_SIZE, position);
      assert file[from..] == file[from..position] + text;
      FullReadsSuffice(file, n, short, from, file[from..]);
    }
  }

  lemma FullReadsFromEnd(file: string, n: nat, short: nat -> nat)
    requires n > 0 && FullReads(file, n, short, |file|, "")
    ensures Last(Split(Normalize(Gathered(file, n, short, |file|, ""))), n) == Last(Split(Normalize(file)), n)
  {
    assert file[|file|..] == "";
    FullReadsSuffice(file, n, short, |file|, "");
  }

  /** What the tail reader returns. */
  function TailText(file: string, n: int, short: nat -> nat): string {
    if n <= 0 then "" else Join(Last(Split(Normalize(Gathered(file, n, short, |file|, ""))), n))
  }

  /** Every read on the grid of chunks that ends at position delivers all of its chunk. */
  predicate GridFull(short: nat -> nat, position: nat) {
    if position == 0 then true
    else
      var from := position - Smaller(CHUNK_SIZE, position);
      short(from) >= position - from && GridFull(short, from)
  }

  lemma {:induction false} GridReadsFull(file: string, n: int, short: nat -> nat, position: nat, text: string)
    requires position <= |file| && GridFull(short, position)
    ensures FullReads(file, n, short, position, text)
    decreases position
  {
    if position > 0 && Newlines(text) < n {
      var from := position - Smaller(CHUNK_SIZE, position);
      GridReadsFull(file, n, short, from, file[from..position] + text);
    }
  }

  predicate OneLine(s: string) { '\n' !in s && '\r' !in s }

  /** Without line ends the reader visits the whole grid; a read that is not full leaves it with less than the file. */
  lemma {:induction false} GapLosesText(file: string, n: nat, short: nat -> nat, position: nat, text: string)
    requires n > 0 && position <= |file| && OneLine(file) && OneLine(text)
    ensures OneLine(Gathered(file, n, short, position, text))
    ensures |Gathered(file, n, short, position, text)| <= position + |text|
    ensures !GridFull(short, position) ==> |Gathered(file, n, short, position, text)| < position + |text|
    decreases position
  {
    SplitOneLine(text);
    if position > 0 {
      var from := position - Smaller(CHUNK_SIZE, position);
      var got := Smaller(short(from), position - from);
      if got > 0 {
        assert OneLine(file[from..from + got] + text);
        GapLosesText(file, n, short, from, file[from..from + got] + text);
      }
    }
  }

  lemma {:induction false} OneLineIsNormal(s: string)
    requires OneLine(s)
    ensures Normalize(s) == s
  {
    if s != "" {
      OneLineIsNormal(s[1..]);
      assert s == [s[0]] + s[1..];
    }
  }

  lemma TailOfOneLine(s: string, n: nat)
    requires OneLine(s) && n > 0
    ensures Join(Last(Split(Normalize(s)), n)) == s
  {
    OneLineIsNormal(s);
    SplitOneLine(s);
  }

  /** The tail is right for every file of a given length if and only if every read on its grid is full. */
  lemma TailIsRightExactly(length: nat, n: nat, short: nat -> nat)
    requires n > 0
    ensures (forall file: string | |file| == length :: TailText(file, n, short) == TailLines(file, n))
       <==> GridFull(short, length)
  {
    if GridFull(short, length) {
      forall file: string | |file| == length ensures TailText(file, n, short) == TailLines(file, n) {
        GridReadsFull(file, n, short, length, "");
        FullReadsFromEnd(file, n, short);
      }
    } else {
      var file := seq(length, i => 'a');
      GapLosesText(file, n, short, length, "");
      TailOfOneLine(Gathered(file, n, short, length, ""), n);
      TailOfOneLine(file, n);
      assert TailText(file, n, short) != TailLines(file, n);
    }
  }

  /** A read that delivers less leaves a gap: here the last line loses its last letter. */
  lemma ShortReadLosesText()
    ensures Gathered("ab", 1, p => 1, 2, "") == "a" && TailLines("ab", 1) == "ab"
  {
    assert "ab"[0..1] + "" == "a";
    assert Gathered("ab", 1, p => 1, 0, "a") == "a";
    assert Normalize("ab") == "ab" by { assert "ab"[1..] == "b" && "b"[1..] == ""; }
    SplitOneLine("ab");
  }

  // ---- The head ----

  function HeadLines(file: string, n: int): string {
    Join(First(WithoutTrailingEmpty(Split(file)), n))
  }

  /** What a read at position delivers: nothing at the end of the file, otherwise any number of bytes
      up to the chunk size, as the file system (short) pleases. */
  function Read(file: string, position: nat, short: nat -> nat): (chunk: string)
    ensures position < |file| ==> chunk != "" && chunk <= file[position..]
    ensures position >= |file| ==> chunk == ""
    ensures |chunk| <= CHUNK_SIZE
  {
    if position >= |file| then ""
    else
      var most := if |file| - position < CHUNK_SIZE then |file| - position else CHUNK_SIZE;
      file[position..position + 1 + short(position) % most]
  }

  method LastIndexOfNewline(s: string) returns (k: int)
    ensures -1 <= k < |s|
    ensures k >= 0 ==> s[k] == '\n'
    ensures '\n' !in s[k + 1..]
  {
    k := |s| - 1;
    while k >= 0 && s[k] != '\n'
      invariant -1 <= k < |s|
      invariant '\n' !in s[k + 1..]
    {
      assert s[k..] == [s[k]] + s[k + 1..];
      k := k - 1;
    }
  }

  /** Complete lines taken off a buffer, with what is left of it. */
  lemma BufferSplits(lines: seq<string>, seen: string, buffer: string, k: nat)
    requires Split(seen) == lines + Split(buffer)
    requires k < |buffer| && buffer[k] == '\n' && '\n' !in buffer[k + 1..]
    ensures Split(seen) == lines + Split(buffer[..k]) + [buffer[k + 1..]]
  {
    var rest := buffer[k + 1..];
    SplitAround(buffer[..k], rest);
    assert buffer == buffer[..k] + "\n" + rest;
    SplitOneLine(rest);
  }

  /** Reading on extends the unfinished line. */
  lemma ExtendedBuffer(seen: string, lines: seq<string>, buffer: string, chunk: string)
    requires Split(seen) == lines + [buffer] && '\n' !in buffer
    ensures Split(seen + chunk) == lines + Split(buffer + chunk)
  {
    SplitOfConcat(seen, chunk);
    SplitOfConcat(buffer, chunk);
    SplitOneLine(buffer);
    GlueUnder(lines, buffer, Split(chunk));
  }

  /** Once n complete lines have been read, the rest of the file does not change the first n. */
  lemma EnoughLines(file: string, seen: string, lines: seq<string>, buffer: string, n: nat)
    requires seen <= file && Split(seen) == lines + [buffer] && n <= |lines|
    ensures First(WithoutTrailingEmpty(Split(file)), n) == lines[..n]
  {
    var rest := file[|seen|..];
    assert file == seen + rest;
    SplitOfConcat(seen, rest);
    GlueLast(lines, buffer, Split(rest));
    FirstOfLonger(lines, Split(file), n);
  }

  lemma FirstOfLonger(lines: seq<string>, all: seq<string>, n: nat)
    requires n <= |lines| < |all| && all[..|lines|] == lines
    ensures First(WithoutTrailingEmpty(all), n) == lines[..n]
  {
    var kept := WithoutTrailingEmpty(all);
    assert kept[..|lines|] == lines;
    assert kept[..n] == kept[..|lines|][..n];
  }

  lemma EndOfFile(file: string, lines: seq<string>, buffer: string, n: nat)
    requires Split(file) == lines + [buffer] && |lines| < n
    ensures First(WithoutTrailingEmpty(Split(file)), n) == if buffer == "" then lines else lines + [buffer]
  {
  }

  /** What headFile knows after reading up to position. */
  ghost predicate Progress(file: string, n: int, position: nat, lines: seq<string>, buffer: string) {
    && position <= |file|
    && '\n' !in buffer
    && if |lines| < n then Split(file[..position]) == lines + [buffer] else HeadLines(file, n) == Join(lines)
  }

  lemma ChunkWithoutNewline(file: string, n: int, position: nat, lines: seq<string>, buffer: string, chunk: string)
    requires Progress(file, n, position, lines, buffer) && |lines| < n
    requires chunk <= file[position..] && '\n' !in buffer + chunk
    ensures Progress(file, n, position + |chunk|, lines, buffer + chunk)
  {
    ExtendedBuffer(file[..position], lines, buffer, chunk);
    assert file[..position + |chunk|] == file[..position] + chunk;
    SplitOneLine(buffer + chunk);
  }

  lemma ChunkWithNewline(file: string, n: int, position: nat, lines: seq<string>, buffer: string, chunk: string, k: nat)
    requires Progress(file, n, position, lines, buffer) && |lines| < n
    requires chunk <= file[position..]
    requires k < |buffer + chunk| && (buffer + chunk)[k] == '\n' && '\n' !in (buffer + chunk)[k + 1..]
    ensures var all := buffer + chunk;
            Progress(file, n, position + |chunk|, lines + First(Split(all[..k]), n - |lines|), all[k + 1..])
  {
    var all, seen := buffer + chunk, file[..position + |chunk|];
    ExtendedBuffer(file[..position], lines, buffer, chunk);
    assert seen == file[..position] + chunk;
    BufferSplits(lines, seen, all, k);
    var complete := lines + Split(all[..k]);
    if n <= |complete| {
      EnoughLines(file, seen, complete, all[k + 1..], n);
      assert complete[..n] == lines + First(Split(all[..k]), n - |lines|);
    }
  }

  /** headFile: complete lines are taken off the front of a buffer that grows chunk by chunk. */
  method HeadFile(file: string, n: int, short: nat -> nat) returns (r: string)
    ensures r == HeadLines(file, n)
  {
    var lines: seq<string> := [];
    var buffer, position := "", 0;
    while |lines| < n
      invariant Progress(file, n, position, lines, buffer)
      decreases |file| - position
    {
      var chunk := Read(file, position, short);
      if chunk == "" {
        assert file[..position] == file;
        EndOfFile(file, lines, buffer, n);
        break;
      }
      var k := LastIndexOfNewline(buffer + chunk);
      if k == -1 {
        ChunkWithoutNewline(file, n, position, lines, buffer, chunk);
        buffer := buffer + chunk;
      } else {
        ChunkWithNewline(file, n, position, lines, buffer, chunk, k);
        buffer := buffer + chunk;
        lines := PushLines(lines, Split(buffer[..k]), n);
        buffer := buffer[k + 1..];
      }
      position := position + |chunk|;
    }
    if buffer != "" && |lines| < n {
      lines := lines + [buffer];
    }
    r := Join(lines);
  }

  /** The inner loop of headFile: push complete lines until there are n. */
  method PushLines(lines: seq<string>, complete: seq<string>, n: nat) returns (r: seq<string>)
    requires |lines| < n
    ensures r == lines + First(complete, n - |lines|)
  {
    r := lines;
    for i := 0 to |complete|
      invariant |r| < n && r == lines + complete[..i]
    {
      r := r + [complete[i]];
      if |r| >= n {
        return;
      }
    }
  }

  // ---- Both ends together ----

  lemma {:induction false} JoinOfConcat(a: seq<string>, b: seq<string>)
    requires a != [] && b != []
    ensures Join(a + b) == Join(a) + "\n" + Join(b)
  {
    if |a| == 1 {
      assert (a + b)[1..] == b;
    } else {
      JoinOfConcat(a[1..], b);
      assert (a + b)[1..] == a[1..] + b;
      assert Join(a + b) == a[0] + "\n" + (Join(a[1..]) + "\n" + Join(b));
    }
  }

  /** Asking for at least as many lines as there are returns the whole file: from the tail in normal
      form, from the head without a final newline. */
  lemma WholeFile(file: string, n: nat)
    requires n > Newlines(file)
    ensures TailLines(file, n) == Normalize(file)
    ensures HeadLines(file, n) == file || HeadLines(file, n) + "\n" == file
  {
    NormalizeKeepsNewlines(file);
    JoinOfSplit(Normalize(file));
    JoinOfSplit(file);
    DropEmptyEnd(Split(file));
  }

  lemma DropEmptyEnd(lines: seq<string>)
    ensures var kept := Join(WithoutTrailingEmpty(lines));
            Join(lines) == kept || Join(lines) == kept + "\n"
  {
    var k := |lines| - 1;
    if k > 0 && lines[k] == "" {
      assert lines == lines[..k] + [""];
      JoinOfConcat(lines[..k], [""]);
    }
  }

  lemma CutLines(lines: seq<string>, k: nat)
    requires 0 < k < |lines|
    ensures Join(First(lines, k)) + "\n" + Join(Last(lines, |lines| - k)) == Join(lines)
  {
    assert lines == lines[..k] + lines[k..];
    JoinOfConcat(lines[..k], lines[k..]);
  }

  /** The first k lines of the normal form and the remaining lines, as the tail reader returns them, make it up. */
  lemma HeadAndTailMeet(file: string, text: string, k: nat)
    requires text == Normalize(file) && 0 < k <= Newlines(file)
    ensures Join(First(Split(text), k)) + "\n" + TailLines(file, Newlines(file) + 1 - k) == text
  {
    NormalizeKeepsNewlines(file);
    JoinOfSplit(text);
    CutLines(Split(text), k);
  }
}
