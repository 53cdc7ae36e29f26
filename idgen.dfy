/**
 * `generateId` (src/index.js, lines 86-93): five characters drawn from a
 * 27-character alphabet that leaves out the look-alikes 0, 1, 6, 8, i, l, o, u, v.
 * `Math.floor(Math.random() * chars.length)` is an index in [0, 27); the model
 * takes those five indices from the caller.
 */
module IdGenerator {
  import opened NoteIds

  const Alphabet: string := "234579abcdefghjkmnpqrstwxyz"

  /** The number of characters in a generated identifier. */
  const IdLength: nat := 5

  /** Indices that `Math.floor(Math.random() * 27)` can produce, one per character. */
  predicate ValidPicks(picks: seq<nat>) {
    |picks| == IdLength && forall i :: 0 <= i < |picks| ==> picks[i] < |Alphabet|
  }

  /** The identifier the loop builds from the given indices. */
  function IdFromPicks(picks: seq<nat>): string
    requires ValidPicks(picks)
  {
    seq(IdLength, i requires 0 <= i < IdLength => Alphabet[picks[i]])
  }

  /** The loop of lines 88-91: append one alphabet character per iteration. */
  method GenerateId(picks: seq<nat>) returns (result: string)
    requires ValidPicks(picks)
    ensures result == IdFromPicks(picks)
  {
    result := "";
    for i := 0 to IdLength
      invariant |result| == i
      invariant forall k :: 0 <= k < i ==> result[k] == Alphabet[picks[k]]
    {
      result := result + [Alphabet[picks[i]]];
    }
  }

  /** A generated identifier has exactly five characters, all from the alphabet,
      none of them a look-alike, and it passes the identifier check of line 19. */
  lemma GeneratedIdShape(picks: seq<nat>)
    requires ValidPicks(picks)
    ensures |IdFromPicks(picks)| == IdLength
    ensures forall c :: c in IdFromPicks(picks) ==> c in Alphabet
    ensures forall c :: c in IdFromPicks(picks) ==> c !in "0168ilouv"
    ensures ValidId(IdFromPicks(picks))
  {
    var id := IdFromPicks(picks);
    assert forall k :: 0 <= k < |Alphabet| ==> IsIdChar(Alphabet[k]) && Alphabet[k] !in "0168ilouv";
    forall c | c in id ensures c in Alphabet && c !in "0168ilouv" {
      var i :| 0 <= i < |id| && id[i] == c;
      assert c == Alphabet[picks[i]];
    }
  }
}
