/** Local references: "#" or "#/..." URI fragments holding a JSON Pointer (RFC 6901). */
module JsonPointer {
  import opened Text
  import opened JsonDocument

  function Prepend(c: char, rest: Option<string>): Option<string> {
    if rest.None? then None else Some([c] + rest.value)
  }

  predicate IsHex(c: char) { '0' <= c <= '9' || 'a' <= c <= 'f' || 'A' <= c <= 'F' }

  function HexValue(c: char): (v: nat)
    requires IsHex(c)
    ensures v < 16
  {
    if c <= '9' then c as int - '0' as int
    else if c <= 'F' then c as int - 'A' as int + 10
    else c as int - 'a' as int + 10
  }

  /** url.PathUnescape. */
  function Unescape(s: string): Option<string> {
    if s == "" then Some("")
    else if s[0] != '%' then Prepend(s[0], Unescape(s[1..]))
    else if |s| < 3 || !IsHex(s[1]) || !IsHex(s[2]) then None
    else Prepend((16 * HexValue(s[1]) + HexValue(s[2])) as char, Unescape(s[3..]))
  }

  /** The text of one reference token: ~0 stands for ~ and ~1 for /. */
  function TokenText(s: string): Option<string> {
    if s == "" then Some("")
    else if s[0] != '~' then Prepend(s[0], TokenText(s[1..]))
    else if |s| < 2 then None
    else if s[1] == '0' then Prepend('~', TokenText(s[2..]))
    else if s[1] == '1' then Prepend('/', TokenText(s[2..]))
    else None
  }

  function Append(prefix: string, rest: Option<string>): Option<string> {
    if rest.None? then None else Some(prefix + rest.value)
  }

  /** decodeJSONPointerToken. */
  method DecodeToken(token: string) returns (text: Option<string>)
    ensures text == TokenText(token)
  {
    var b := "";
    var i := 0;
    assert token[0..] == token;
    assert forall r: string :: b + r == r;
    while i < |token|
      invariant 0 <= i <= |token|
      invariant TokenText(token) == Append(b, TokenText(token[i..]))
    {
      ghost var rest := token[i..];
      if token[i] != '~' {
        assert token[i + 1..] == rest[1..];
        assert forall r: string :: b + ([token[i]] + r) == b + [token[i]] + r;
        b := b + [token[i]];
        i := i + 1;
        continue;
      }
      if i + 1 >= |token| {
        return None;
      }
      assert token[i + 2..] == rest[2..];
      if token[i + 1] == '0' {
        assert forall r: string :: b + (['~'] + r) == b + ['~'] + r;
        b := b + ['~'];
      } else if token[i + 1] == '1' {
        assert forall r: string :: b + (['/'] + r) == b + ['/'] + r;
        b := b + ['/'];
      } else {
        return None;
      }
      i := i + 2;
    }
    assert token[i..] == "" && b + "" == b;
    text := Some(b);
  }

  /** strings.Split on "/". */
  function SplitSlash(s: string): (parts: seq<string>)
    ensures parts != []
  {
    if s == "" then [""]
    else if s[0] == '/' then [""] + SplitSlash(s[1..])
    else
      var rest := SplitSlash(s[1..]);
      [[s[0]] + rest[0]] + rest[1..]
  }

  /** strconv.Atoi without its range check: an index past the range is past the list too. */
  function Atoi(s: string): Option<int> {
    var digits := if s != "" && (s[0] == '+' || s[0] == '-') then s[1..] else s;
    if digits == "" || !AllDigits(digits) then None
    else if s[0] == '-' then Some(0 - Value(digits))
    else Some(Value(digits))
  }

  /** jsonPointerIndex. */
  function Index(token: string): Option<nat> {
    if token == "" || (|token| > 1 && token[0] == '0') then None
    else
      var i := Atoi(token);
      if i.None? || i.value < 0 then None else Some(i.value)
  }

  /** jsonPointerStep. */
  function Step(doc: Document, cur: Json, token: string): Option<Json> {
    match cur
    case Object(id) =>
      var obj := HeapObject(doc, id);
      if token in obj then Some(obj[token]) else None
    case Array(elems) =>
      var i := Index(token);
      if i.None? || i.value >= |elems| then None else Some(elems[i.value])
    case _ => None
  }

  /** The value a list of decoded reference tokens leads to. */
  function Follow(doc: Document, cur: Json, tokens: seq<string>): Option<Json>
    decreases |tokens|
  {
    if tokens == [] then Some(cur)
    else
      var next := Step(doc, cur, tokens[0]);
      if next.None? then None else Follow(doc, next.value, tokens[1..])
  }

  function TokenTexts(parts: seq<string>): Option<seq<string>> {
    if parts == [] then Some([])
    else
      var head, rest := TokenText(parts[0]), TokenTexts(parts[1..]);
      if head.None? || rest.None? then None else Some([head.value] + rest.value)
  }

  function Target(doc: Document, cur: Json, parts: seq<string>): Schema {
    var tokens := TokenTexts(parts);
    if tokens.None? then Invalid
    else
      var found := Follow(doc, cur, tokens.value);
      if found.None? then Invalid else AsSchema(found.value)
  }

  /** What a reference denotes; Invalid when it is not local or leads nowhere. */
  function Resolve(doc: Document, ref: string): Schema {
    if ref == "#" then Node(ROOT)
    else if !("#/" <= ref) then Invalid
    else
      var pointer := Unescape(ref[1..]);
      if pointer.None? then Invalid else Target(doc, Object(0), SplitSlash(pointer.value)[1..])
  }

  /** evalJSONPointer: decode and step, one token at a time. */
  method EvalPointer(doc: Document, pointer: string) returns (s: Schema)
    ensures pointer == "" ==> s == Node(ROOT)
    ensures pointer != "" && !("/" <= pointer) ==> s == Invalid
    ensures "/" <= pointer ==> s == Target(doc, Object(0), SplitSlash(pointer)[1..])
  {
    if pointer == "" {
      return Node(ROOT);
    }
    if !("/" <= pointer) {
      return Invalid;
    }
    var parts := SplitSlash(pointer)[1..];
    var cur := Object(0);
    var i := 0;
    assert parts[0..] == parts;
    while i < |parts|
      invariant 0 <= i <= |parts|
      invariant Target(doc, Object(0), parts) == Target(doc, cur, parts[i..])
    {
      ghost var rest := parts[i..];
      assert rest[1..] == parts[i + 1..];
      var token := DecodeToken(parts[i]);
      if token.None? {
        return Invalid;
      }
      var next := Step(doc, cur, token.value);
      if next.None? {
        return Invalid;
      }
      cur := next.value;
      i := i + 1;
    }
    s := AsSchema(cur);
  }

  /** resolveLocalRef. */
  method ResolveLocalRef(doc: Document, ref: string) returns (s: Schema)
    ensures s == Resolve(doc, ref)
  {
    if ref == "#" {
      s := EvalPointer(doc, "");
      return;
    }
    if !("#/" <= ref) {
      return Invalid;
    }
    var pointer := Unescape(ref[1..]);
    if pointer.None? {
      return Invalid;
    }
    UnescapeKeepsSlash(ref[1..]);
    s := EvalPointer(doc, pointer.value);
  }

  lemma UnescapeKeepsSlash(s: string)
    requires "/" <= s && Unescape(s).Some?
    ensures "/" <= Unescape(s).value
  {
  }

  // ---- Writing references: the inverse direction ----

  function EncodeToken(text: string): string {
    if text == "" then ""
    else if text[0] == '~' then "~0" + EncodeToken(text[1..])
    else if text[0] == '/' then "~1" + EncodeToken(text[1..])
    else [text[0]] + EncodeToken(text[1..])
  }

  function PointerTo(tokens: seq<string>): string {
    if tokens == [] then "" else "/" + EncodeToken(tokens[0]) + PointerTo(tokens[1..])
  }

  predicate IsByte(c: char) { (c as int) < 256 }

  function HexDigit(v: nat): (c: char)
    requires v < 16
    ensures IsHex(c) && HexValue(c) == v
  {
    if v < 10 then ('0' as int + v) as char else ('A' as int + v - 10) as char
  }

  predicate Unreserved(c: char) {
    '0' <= c <= '9' || 'a' <= c <= 'z' || 'A' <= c <= 'Z' || c in "-._~/"
  }

  function Escape(s: string): string
    requires forall c | c in s :: IsByte(c)
  {
    if s == "" then ""
    else
      assert IsByte(s[0]) by { assert s[0] in s; }
      if Unreserved(s[0]) then [s[0]] + Escape(s[1..])
      else ['%', HexDigit(s[0] as int / 16), HexDigit(s[0] as int % 16)] + Escape(s[1..])
  }

  /** c is the hexadecimal digit for v, in either case. */
  predicate HexFor(c: char, v: nat) {
    || (v < 10 && c as int == '0' as int + v)
    || (10 <= v < 16 && (c as int == 'A' as int + (v - 10) || c as int == 'a' as int + (v - 10)))
  }

  lemma HexFixes(c: char)
    ensures IsHex(c) <==> exists v: nat :: HexFor(c, v)
    ensures forall v: nat :: HexFor(c, v) ==> IsHex(c) && HexValue(c) == v
  {
    if IsHex(c) {
      assert HexFor(c, HexValue(c));
    }
  }

  lemma EscapedByte(h: char, l: char, c: char)
    ensures IsHex(h) && IsHex(l) && (16 * HexValue(h) + HexValue(l)) as char == c <==>
            IsByte(c) && HexFor(h, c as int / 16) && HexFor(l, c as int % 16)
  {
    HexFixes(h);
    HexFixes(l);
    if IsHex(h) && IsHex(l) {
      var x, y := HexValue(h), HexValue(l);
      assert (16 * x + y) / 16 == x && (16 * x + y) % 16 == y;
    }
  }

  /** Percent-encoding (section 2.1 of RFC 3986): e writes each byte of s as it is, unless that is a percent sign, or
      as a percent sign and two digits of either case. */
  ghost predicate Writes(e: string, s: string) {
    if s == "" then e == ""
    else
      || (e != "" && e[0] != '%' && e[0] == s[0] && Writes(e[1..], s[1..]))
      || (|e| >= 3 && e[0] == '%' && IsByte(s[0]) && HexFor(e[1], s[0] as int / 16) && HexFor(e[2], s[0] as int % 16)
          && Writes(e[3..], s[1..]))
  }

  /** url.PathUnescape reads every way of writing a text, and nothing else. */
  lemma {:induction false} UnescapeExactly(e: string, s: string)
    ensures Unescape(e) == Some(s) <==> Writes(e, s)
    decreases |e|
  {
    if e != "" && e[0] != '%' {
      if s != "" {
        UnescapeExactly(e[1..], s[1..]);
        assert s == [s[0]] + s[1..];
      }
    } else if |e| >= 3 {
      if s != "" {
        UnescapeExactly(e[3..], s[1..]);
        assert s == [s[0]] + s[1..];
        EscapedByte(e[1], e[2], s[0]);
      }
    }
  }

  lemma UpperDigit(v: nat)
    requires v < 16
    ensures HexFor(HexDigit(v), v)
  {
  }

  lemma {:induction false} EscapeWrites(s: string)
    requires forall c | c in s :: IsByte(c)
    ensures Writes(Escape(s), s)
  {
    if s != "" {
      EscapeWrites(s[1..]);
      assert s[0] in s;
      UpperDigit(s[0] as int / 16);
      UpperDigit(s[0] as int % 16);
      var e := Escape(s);
      if Unreserved(s[0]) {
        assert e[1..] == Escape(s[1..]);
      } else {
        assert e[3..] == Escape(s[1..]);
      }
    }
  }

  lemma EscapeRoundTrip(s: string)
    requires forall c | c in s :: IsByte(c)
    ensures Unescape(Escape(s)) == Some(s)
  {
    EscapeWrites(s);
    UnescapeExactly(Escape(s), s);
  }

  /** A slash-free piece of a pointer decodes to text exactly when it is the encoding of text,
      so distinct keys have distinct pointers and none is written in two ways. */
  lemma {:induction false} TokenCodec(part: string, text: string)
    requires '/' !in part
    ensures TokenText(part) == Some(text) <==> part == EncodeToken(text)
  {
    if part == "" {
      assert text != "" ==> EncodeToken(text) != "";
    } else if part[0] != '~' {
      if text != "" {
        TokenCodec(part[1..], text[1..]);
        assert text == [text[0]] + text[1..] && part == [part[0]] + part[1..];
        assert EncodeToken(text)[0] == part[0]
            ==> text[0] == part[0] && EncodeToken(text) == [text[0]] + EncodeToken(text[1..]);
      }
    } else if |part| >= 2 {
      assert part == part[..2] + part[2..];
      if text != "" {
        TokenCodec(part[2..], text[1..]);
        assert text == [text[0]] + text[1..];
        var c := if part[1] == '0' then '~' else '/';
        if text[0] == c && (part[1] == '0' || part[1] == '1') {
          assert EncodeToken(text) == part[..2] + EncodeToken(text[1..]);
        } else {
          assert EncodeToken(text)[..1] != "~" || EncodeToken(text)[1] != part[1];
        }
      }
    } else {
      assert text != "" && text[0] in "~/" ==> |EncodeToken(text)| >= 2;
    }
  }

  lemma {:induction false} SplitAfter(head: string, rest: string)
    requires '/' !in head
    ensures SplitSlash(head + rest) == [head + SplitSlash(rest)[0]] + SplitSlash(rest)[1..]
  {
    if head == "" {
      assert head + rest == rest;
      assert head + SplitSlash(rest)[0] == SplitSlash(rest)[0];
    } else {
      SplitAfter(head[1..], rest);
      assert (head + rest)[1..] == head[1..] + rest;
      assert [head[0]] + (head[1..] + SplitSlash(rest)[0]) == head + SplitSlash(rest)[0];
    }
  }

  lemma EncodedHasNoSlash(text: string)
    ensures '/' !in EncodeToken(text)
  {
  }

  lemma {:induction false} PointerSplits(tokens: seq<string>)
    ensures TokenTexts(SplitSlash(PointerTo(tokens))[1..]) == Some(tokens)
    ensures SplitSlash(PointerTo(tokens))[0] == ""
  {
    if tokens != [] {
      var head, rest := EncodeToken(tokens[0]), PointerTo(tokens[1..]);
      PointerSplits(tokens[1..]);
      EncodedHasNoSlash(tokens[0]);
      SplitAfter(head, rest);
      TokenCodec(head, tokens[0]);
      assert PointerTo(tokens)[1..] == head + rest;
      var parts := SplitSlash(PointerTo(tokens))[1..];
      assert parts[0] == head && parts[1..] == SplitSlash(rest)[1..];
      assert tokens == [tokens[0]] + tokens[1..];
    }
  }

  /** A reference written for a location denotes that location, whatever characters its keys
      hold, and denotes nothing when no value lives there. */
  lemma ReferenceRoundTrip(doc: Document, tokens: seq<string>)
    requires forall c | c in PointerTo(tokens) :: IsByte(c)
    ensures var found := Follow(doc, Object(0), tokens);
            Resolve(doc, "#" + Escape(PointerTo(tokens)))
            == if found.None? then Invalid else AsSchema(found.value)
  {
    var pointer := PointerTo(tokens);
    var ref := "#" + Escape(pointer);
    if tokens == [] {
      assert ref == "#";
    } else {
      EscapeRoundTrip(pointer);
      assert ref[1..] == Escape(pointer);
      assert ref[..2] == "#/";
      PointerSplits(tokens);
    }
  }

  /** The value x is where the keys and indices lead to, from the root of the document. */
  ghost predicate Located(doc: Document, tokens: seq<string>, x: Json) {
    if tokens == [] then x == Object(0)
    else
      var last := tokens[|tokens| - 1];
      exists around :: Located(doc, tokens[..|tokens| - 1], around) && PartAt(doc, around, last, x)
  }

  /** x is the member of an object under a key, or the element of a list at an index written in digits. */
  ghost predicate PartAt(doc: Document, around: Json, key: string, x: Json) {
    || (around.Object? && around.id < |doc.heap| && key in doc.heap[around.id] && doc.heap[around.id][key] == x)
    || (around.Array? && exists i | 0 <= i < |around.elems| :: key == Decimal(i) && around.elems[i] == x)
  }

  lemma {:induction false} FollowOneMore(doc: Document, cur: Json, tokens: seq<string>, last: string)
    ensures var found := Follow(doc, cur, tokens);
            Follow(doc, cur, tokens + [last]) == if found.None? then None else Step(doc, found.value, last)
    decreases |tokens|
  {
    if tokens == [] {
      assert [] + [last] == [last] && [last][1..] == [];
    } else {
      assert (tokens + [last])[1..] == tokens[1..] + [last];
      var next := Step(doc, cur, tokens[0]);
      if next.Some? { FollowOneMore(doc, next.value, tokens[1..], last); }
    }
  }

  lemma {:induction false} LocatedIsFollowed(doc: Document, tokens: seq<string>, x: Json)
    requires Located(doc, tokens, x)
    ensures Follow(doc, Object(0), tokens) == Some(x)
    decreases |tokens|
  {
    if tokens != [] {
      var front, last := tokens[..|tokens| - 1], tokens[|tokens| - 1];
      var around :| Located(doc, front, around) && PartAt(doc, around, last, x);
      LocatedIsFollowed(doc, front, around);
      FollowOneMore(doc, Object(0), front, last);
      assert tokens == front + [last];
      PartIsStep(doc, around, last, x);
    }
  }

  lemma PartIsStep(doc: Document, around: Json, key: string, x: Json)
    requires PartAt(doc, around, key, x)
    ensures Step(doc, around, key) == Some(x)
  {
    if around.Array? {
      var i :| 0 <= i < |around.elems| && key == Decimal(i) && around.elems[i] == x;
      IndexForms(key, i);
    }
  }

  /** Every value of the document has its reference: written however the fragment is percent-encoded, the reference to
      where it lives denotes the schema it is. */
  lemma EveryValueIsReferable(doc: Document, tokens: seq<string>, x: Json, e: string)
    requires tokens != [] && Located(doc, tokens, x) && "/" <= e && Writes(e, PointerTo(tokens))
    ensures Resolve(doc, "#" + e) == AsSchema(x)
  {
    UnescapeExactly(e, PointerTo(tokens));
    LocatedIsFollowed(doc, tokens, x);
    PointerSplits(tokens);
    assert ("#" + e)[1..] == e && ("#" + e)[..2] == "#/";
  }

  /** RFC 6901 section 4 writes an index as plain digits without a leading zero. The program reads
      those exactly, and beyond them only a plus sign before digits, or a minus sign before zeros. */
  lemma IndexForms(token: string, i: nat)
    ensures Index(token) == Some(i) <==>
      || token == Decimal(i)
      || (|token| > 1 && token[0] == '+' && AllDigits(token[1..]) && Value(token[1..]) == i)
      || (|token| > 1 && token[0] == '-' && AllDigits(token[1..]) && Value(token[1..]) == 0 == i)
  {
    if token != "" && AllDigits(token) {
      ValueOfDecimal(i);
      if |token| == 1 || token[0] != '0' {
        DecimalOfValue(token);
      }
      assert IsDigit(token[0]);
    }
    if token == Decimal(i) {
      assert AllDigits(token);
    }
  }

  lemma SignedIndexIsAccepted()
    ensures Index("+1") == Some(1) && "+1" != Decimal(1)
  {
    assert "+1"[1..] == "1" && "1"[..0] == "";
  }
}
