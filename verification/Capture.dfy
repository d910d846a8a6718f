/** The output capture of a reproduction run: hashes every byte, looks for a marker across chunk
    boundaries, and keeps a bounded prefix. */
module Captures {

  type Bytes = seq<bv8>

  const MAX_KEPT_OUTPUT: nat := 1048576

  predicate OccursAt(s: Bytes, marker: Bytes, i: int) {
    0 <= i <= |s| - |marker| && s[i..i + |marker|] == marker
  }

  /** bytes.Contains. */
  predicate Contains(s: Bytes, marker: Bytes) {
    exists i | 0 <= i <= |s| - |marker| :: OccursAt(s, marker, i)
  }

  function Shorter(a: nat, b: nat): nat { if a < b then a else b }

  function Suffix(s: Bytes, n: nat): Bytes {
    if |s| > n then s[|s| - n..] else s
  }

  /** The fields Write updates; hashed is the input the running digest has consumed. */
  datatype State = State(hashed: Bytes, pref: Bytes, found: bool, kept: Bytes)

  const EMPTY := State([], [], false, [])

  /** What one Write does. */
  function AfterWrite(marker: Bytes, s: State, p: Bytes): State {
    var scanning := |marker| > 0 && !s.found;
    State(s.hashed + p,
          if scanning then Suffix(s.pref + p, |marker| - 1) else s.pref,
          if scanning then Contains(s.pref + p, marker) else s.found,
          if |s.kept| < MAX_KEPT_OUTPUT then s.kept + p[..Shorter(|p|, MAX_KEPT_OUTPUT - |s.kept|)] else s.kept)
  }

  class Capture {
    const marker: Bytes
    var hashed: Bytes
    var pref: Bytes
    var found: bool
    var kept: Bytes

    function Current(): State
      reads this
    {
      State(hashed, pref, found, kept)
    }

    constructor (marker: Bytes)
      ensures this.marker == marker && Current() == EMPTY
    {
      this.marker := marker;
      hashed, pref, found, kept := [], [], false, [];
    }

    method Write(p: Bytes) returns (n: nat)
      modifies this
      ensures Current() == AfterWrite(marker, old(Current()), p)
      ensures n == |p|
    {
      hashed := hashed + p;
      if |marker| > 0 && !found {
        var buf := pref + p;
        found := Contains(buf, marker);
        var keep := |marker| - 1;
        if |buf| > keep {
          pref := buf[|buf| - keep..];
        } else {
          pref := buf;
        }
      }
      if |kept| < MAX_KEPT_OUTPUT {
        var room := MAX_KEPT_OUTPUT - |kept|;
        if |p| < room {
          room := |p|;
        }
        kept := kept + p[..room];
      }
      n := |p|;
    }
  }

  // ---- Chunked scanning equals scanning the whole output ----

  function Concat(chunks: seq<Bytes>): Bytes {
    if chunks == [] then [] else Concat(chunks[..|chunks| - 1]) + chunks[|chunks| - 1]
  }

  function AfterAll(marker: Bytes, chunks: seq<Bytes>): State {
    if chunks == [] then EMPTY
    else AfterWrite(marker, AfterAll(marker, chunks[..|chunks| - 1]), chunks[|chunks| - 1])
  }

  /** Where s occurs inside a longer string, so do the marker's occurrences in it, and back. */
  lemma OccurrenceShifts(before: Bytes, s: Bytes, after: Bytes, marker: Bytes, i: int)
    requires 0 <= i <= |s| - |marker|
    ensures OccursAt(s, marker, i) <==> OccursAt(before + s + after, marker, |before| + i)
  {
    assert (before + s + after)[|before| + i..|before| + i + |marker|] == s[i..i + |marker|];
  }

  lemma ContainsExtends(before: Bytes, s: Bytes, after: Bytes, marker: Bytes)
    requires Contains(s, marker)
    ensures Contains(before + s + after, marker)
  {
    var i :| 0 <= i <= |s| - |marker| && OccursAt(s, marker, i);
    OccurrenceShifts(before, s, after, marker, i);
  }

  /** An occurrence that is not already in the scanned output overlaps the new chunk, so it lies within
      the chunk and the last |marker| - 1 bytes before it. */
  lemma ScanAcrossBoundary(s: Bytes, p: Bytes, marker: Bytes)
    requires |marker| > 0 && !Contains(s, marker)
    ensures Contains(s + p, marker) <==> Contains(Suffix(s, |marker| - 1) + p, marker)
  {
    var tail := Suffix(s, |marker| - 1);
    var head := s[..|s| - |tail|];
    assert s == head + tail && head + (tail + p) + [] == s + p;
    forall i | 0 <= i <= |s + p| - |marker| && OccursAt(s + p, marker, i)
      ensures OccursAt(tail + p, marker, i - |head|)
    {
      NotBefore(s, p, marker, i);
      OccurrenceShifts(head, tail + p, [], marker, i - |head|);
    }
    if Contains(tail + p, marker) {
      ContainsExtends(head, tail + p, [], marker);
    }
  }

  lemma NotBefore(s: Bytes, p: Bytes, marker: Bytes, i: int)
    requires |marker| > 0 && !Contains(s, marker) && OccursAt(s + p, marker, i)
    ensures i > |s| - |marker|
  {
    if i <= |s| - |marker| {
      assert [] + s + p == s + p;
      OccurrenceShifts([], s, p, marker, i);
    }
  }

  lemma SuffixOfSuffix(s: Bytes, p: Bytes, n: nat)
    ensures Suffix(Suffix(s, n) + p, n) == Suffix(s + p, n)
  {
  }

  /** What the capture holds after output all. */
  ghost predicate Captured(marker: Bytes, s: State, all: Bytes) {
    && s.hashed == all
    && (s.found <==> |marker| > 0 && Contains(all, marker))
    && s.kept == all[..Shorter(|all|, MAX_KEPT_OUTPUT)]
    && (|marker| > 0 && !s.found ==> s.pref == Suffix(all, |marker| - 1))
  }

  lemma OneWrite(marker: Bytes, s: State, all: Bytes, p: Bytes)
    requires Captured(marker, s, all)
    ensures Captured(marker, AfterWrite(marker, s, p), all + p)
  {
    if |marker| > 0 {
      if s.found {
        ContainsExtends([], all, p, marker);
        assert [] + all + p == all + p;
      } else {
        ScanAcrossBoundary(all, p, marker);
        SuffixOfSuffix(all, p, |marker| - 1);
      }
    }
    KeptExtends(all, p);
  }

  lemma KeptExtends(all: Bytes, p: Bytes)
    ensures var kept := all[..Shorter(|all|, MAX_KEPT_OUTPUT)];
            (all + p)[..Shorter(|all + p|, MAX_KEPT_OUTPUT)]
            == if |kept| < MAX_KEPT_OUTPUT then kept + p[..Shorter(|p|, MAX_KEPT_OUTPUT - |kept|)] else kept
  {
  }

  /** However the output is split into writes: the digest covers all of it, a non-empty marker is found
      exactly when it occurs in it, and the kept part is its first mebibyte. */
  lemma {:induction false} ChunksDoNotMatter(marker: Bytes, chunks: seq<Bytes>)
    ensures var all, s := Concat(chunks), AfterAll(marker, chunks);
            && s.hashed == all
            && (s.found <==> |marker| > 0 && Contains(all, marker))
            && s.kept == all[..Shorter(|all|, 1048576)]
    ensures Captured(marker, AfterAll(marker, chunks), Concat(chunks))
  {
    if chunks != [] {
      var before := chunks[..|chunks| - 1];
      ChunksDoNotMatter(marker, before);
      OneWrite(marker, AfterAll(marker, before), Concat(before), chunks[|chunks| - 1]);
    }
  }
}
