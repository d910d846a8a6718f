/** Family names and the request ids built from them. */
module RequestIds {
  import opened Text

  predicate SafeChar(c: char) {
    'a' <= c <= 'z' || 'A' <= c <= 'Z' || '0' <= c <= '9' || c == '-' || c == '_' || c == '.'
  }

  /** validateSafeID. */
  predicate SafeId(id: string) {
    id != "." && id != ".." && forall c | c in id :: SafeChar(c)
  }

  /** strings.Split on "--". */
  function SplitDashes(s: string): (parts: seq<string>)
    ensures parts != []
  {
    if s == "" then [""]
    else if "--" <= s then [""] + SplitDashes(s[2..])
    else
      var rest := SplitDashes(s[1..]);
      [[s[0]] + rest[0]] + rest[1..]
  }

  function JoinDashes(parts: seq<string>): string
    requires parts != []
  {
    if |parts| == 1 then parts[0] else parts[0] + "--" + JoinDashes(parts[1..])
  }

  /** Neither in the string, nor with one more dash behind it, are there two dashes in a row. */
  ghost predicate EndsBeforeDashes(s: string) { forall i | 0 <= i < |s| :: !(s[i] == '-' && (s + "-")[i + 1] == '-') }

  ghost predicate HasNoDashes(s: string) { forall i | 0 <= i < |s| - 1 :: !(s[i] == '-' && s[i + 1] == '-') }

  /** The parts are what is left when the string is cut at each pair of dashes, the leftmost first. */
  ghost predicate CutAtDashes(s: string, parts: seq<string>) {
    && parts != [] && JoinDashes(parts) == s
    && (forall i | 0 <= i < |parts| - 1 :: EndsBeforeDashes(parts[i]))
    && HasNoDashes(parts[|parts| - 1])
  }

  lemma {:induction false} SplitDashesExactly(s: string)
    ensures CutAtDashes(s, SplitDashes(s))
  {
    if s == "" {
    } else if "--" <= s {
      SplitDashesExactly(s[2..]);
      assert s == "--" + s[2..];
      OnePartMore(s, "", SplitDashes(s[2..]));
    } else {
      SplitDashesExactly(s[1..]);
      OneCharMore(s, SplitDashes(s[1..]));
    }
  }

  lemma OnePartMore(s: string, part: string, rest: seq<string>)
    requires rest != [] && EndsBeforeDashes(part) && s == part + "--" + JoinDashes(rest)
    requires CutAtDashes(JoinDashes(rest), rest)
    ensures CutAtDashes(s, [part] + rest)
  {
    var parts := [part] + rest;
    assert parts[1..] == rest;
    assert forall i | 1 <= i < |parts| :: parts[i] == rest[i - 1];
  }

  lemma OneCharMore(s: string, rest: seq<string>)
    requires s != "" && !("--" <= s) && CutAtDashes(s[1..], rest)
    ensures CutAtDashes(s, [[s[0]] + rest[0]] + rest[1..])
  {
    var first, parts := [s[0]] + rest[0], [[s[0]] + rest[0]] + rest[1..];
    assert parts[1..] == rest[1..] && s == [s[0]] + s[1..];
    if |rest| == 1 {
      assert rest[0] == s[1..];
    } else {
      assert s[1..] == rest[0] + "--" + JoinDashes(rest[1..]);
      assert s == first + "--" + JoinDashes(rest[1..]);
    }
  }

  /** ValidateFamilyName. */
  predicate ValidName(family: string) {
    && SafeId(family)
    && forall part | part in SplitDashes(family) :: part != "" && part != "." && part != ".."
  }

  lemma ValidNameIsNotEmpty(family: string)
    requires ValidName(family)
    ensures family != ""
  {
    assert SplitDashes("")[0] == "" && "" in SplitDashes("");
  }

  predicate Space(c: char) { c == ' ' || '\t' <= c <= '\r' || c as int == 0x85 || c as int == 0xA0 }

  /** strings.TrimSpace(s) == "". */
  predicate Blank(s: string) { forall c | c in s :: Space(c) }

  /** fmt.Sprintf("%s--r%d", family, round). */
  function RequestId(family: string, round: nat): string {
    family + "--r" + Decimal(round)
  }

  lemma {:induction false} SuffixOfDigits(a: string, x: string, b: string, y: string)
    requires a + ['r'] + x == b + ['r'] + y
    requires AllDigits(x) && AllDigits(y)
    ensures a == b && x == y
  {
    var s, t := a + ['r'] + x, b + ['r'] + y;
    assert s[|a|] == 'r' && t[|b|] == 'r';
    assert forall i | |a| < i < |s| :: s[i] == x[i - |a| - 1];
    assert forall i | |b| < i < |t| :: t[i] == y[i - |b| - 1];
    assert |a| == |b|;
    assert a == s[..|a|] && b == t[..|b|];
    assert x == s[|a| + 1..] && y == t[|b| + 1..];
  }

  /** A request id names one family and one round, even for families that look like request ids. */
  lemma RequestIdInjective(f: string, r: nat, g: string, s: nat)
    requires RequestId(f, r) == RequestId(g, s)
    ensures f == g && r == s
  {
    assert RequestId(f, r) == (f + "--") + ['r'] + Decimal(r);
    assert RequestId(g, s) == (g + "--") + ['r'] + Decimal(s);
    SuffixOfDigits(f + "--", Decimal(r), g + "--", Decimal(s));
    DecimalInjective(r, s);
    assert f == (f + "--")[..|f|] && g == (g + "--")[..|g|];
  }
}
