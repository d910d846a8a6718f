/** The hash-linked ledger file: appending, verifying on open, and what the last hash pins down. */
module HashChains {
  import opened RequestIds

  /** The fields that are hashed; data and occurred stand for their JSON renderings. */
  datatype Unsigned = Unsigned(id: string, kind: string, occurred: int, data: map<string, string>, prevHash: string)

  datatype Entry = Entry(unsigned: Unsigned, hash: string)

  /** The digest of an event's JSON. */
  type Digest = Unsigned -> string

  /** SHA-256 renders as 64 hex digits and, by assumption where stated, does not collide. */
  ghost predicate NeverEmpty(digest: Digest) { forall u :: digest(u) != "" }

  ghost predicate CollisionFree(digest: Digest) { forall u, v :: digest(u) == digest(v) ==> u == v }

  function LastHash(lines: seq<Entry>): string {
    if lines == [] then "" else lines[|lines| - 1].hash
  }

  /** Each entry links to the one before it and carries its own digest. */
  predicate Chained(digest: Digest, lines: seq<Entry>) {
    forall i | 0 <= i < |lines| ::
      && lines[i].unsigned.prevHash == LastHash(lines[..i])
      && lines[i].hash != "" && lines[i].hash == digest(lines[i].unsigned)
  }

  class Ledger {
    const digest: Digest
    var lines: seq<Entry>
    var lastHash: string

    /** Open: keeps the file as it is and refuses it unless verify passes. */
    constructor (digest: Digest, file: seq<Entry>)
      ensures this.digest == digest && lines == file
    {
      this.digest := digest;
      lines := file;
      lastHash := "";
    }

    method Verify() returns (ok: bool)
      modifies this`lastHash
      ensures ok <==> Chained(digest, lines)
      ensures lastHash == if ok then LastHash(lines) else old(lastHash)
    {
      var previous := "";
      for i := 0 to |lines|
        invariant previous == LastHash(lines[..i])
        invariant Chained(digest, lines[..i])
        invariant lastHash == old(lastHash)
      {
        var event := lines[i];
        assert lines[..i + 1] == lines[..i] + [event];
        if event.unsigned.prevHash != previous {
          return false;
        }
        if event.hash == "" || event.hash != digest(event.unsigned) {
          return false;
        }
        ChainedExtends(digest, lines[..i], event);
        previous := event.hash;
      }
      assert lines[..|lines|] == lines;
      lastHash := previous;
      ok := true;
    }

    /** Refuses blank ids and types; otherwise links, hashes and appends. */
    method Append(id: string, kind: string, occurred: int, data: map<string, string>) returns (ok: bool, event: Entry)
      requires Chained(digest, lines) && lastHash == LastHash(lines) && NeverEmpty(digest)
      modifies this
      ensures ok <==> !Blank(id) && !Blank(kind)
      ensures ok ==>
              event.unsigned == Unsigned(id, kind, occurred, data, old(lastHash))
              && lines == old(lines) + [event]
      ensures !ok ==> lines == old(lines)
      ensures Chained(digest, lines) && lastHash == LastHash(lines)
    {
      event := Entry(Unsigned(id, kind, occurred, data, lastHash), "");
      if Blank(id) || Blank(kind) {
        return false, event;
      }
      event := event.(hash := digest(event.unsigned));
      ChainedExtends(digest, lines, event);
      lines := lines + [event];
      lastHash := event.hash;
      ok := true;
    }
  }

  lemma ChainedExtends(digest: Digest, lines: seq<Entry>, e: Entry)
    requires Chained(digest, lines)
    requires e.unsigned.prevHash == LastHash(lines) && e.hash != "" && e.hash == digest(e.unsigned)
    ensures Chained(digest, lines + [e])
  {
    forall i | 0 <= i < |lines| ensures (lines + [e])[..i] == lines[..i] {
    }
    assert (lines + [e])[..|lines|] == lines;
  }

  lemma ChainedPrefix(digest: Digest, lines: seq<Entry>, n: nat)
    requires Chained(digest, lines) && n <= |lines|
    ensures Chained(digest, lines[..n])
  {
    forall i | 0 <= i < n ensures lines[..n][..i] == lines[..i] {
    }
  }

  /** The last hash determines the whole history: two ledgers that verify and end in the same hash have
      the same events, in the same order, and equally many. */
  lemma {:induction false} LastHashDeterminesHistory(digest: Digest, a: seq<Entry>, b: seq<Entry>)
    requires CollisionFree(digest) && Chained(digest, a) && Chained(digest, b)
    requires LastHash(a) == LastHash(b)
    ensures a == b
  {
    if a != [] && b != [] {
      var x, y := a[|a| - 1], b[|b| - 1];
      assert x.unsigned == y.unsigned;
      ChainedPrefix(digest, a, |a| - 1);
      ChainedPrefix(digest, b, |b| - 1);
      LastHashDeterminesHistory(digest, a[..|a| - 1], b[..|b| - 1]);
      assert a == a[..|a| - 1] + [x] && b == b[..|b| - 1] + [y];
    }
  }
}
