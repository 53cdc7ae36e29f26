/**
 * Note identifiers: the check of src/index.js line 19 and the storage key of line 23.
 */
module NoteIds {

  /** The longest identifier accepted. */
  const MaxIdLength: nat := 64

  /** The prefix of every storage key. */
  const KeyPrefix: string := "note:"

  /** One character of the class `[a-zA-Z0-9_-]`. */
  predicate IsIdChar(c: char) {
    'a' <= c <= 'z' || 'A' <= c <= 'Z' || '0' <= c <= '9' || c == '_' || c == '-'
  }

  /** `/^[a-zA-Z0-9_-]+$/.test(id)`: one or more characters, all of the class.
      Without the `m` flag, `$` matches only at the very end of the input. */
  predicate MatchesIdPattern(id: string) {
    |id| >= 1 && forall i :: 0 <= i < |id| ==> IsIdChar(id[i])
  }

  /** The negation of the rejection test of line 19: an identifier is refused when
      it is empty, too long, or has a character outside the class; an accepted one
      is a single path segment. */
  predicate ValidId(id: string): (ok: bool)
    ensures ok ==> 1 <= |id| <= MaxIdLength && '/' !in id
    ensures (exists i :: 0 <= i < |id| && !IsIdChar(id[i])) ==> !ok
  {
    MatchesIdPattern(id) && |id| <= MaxIdLength
  }

  /** The storage key `note:${noteId}` of line 23. */
  function KeyFor(id: string): (key: string)
    ensures |key| == |KeyPrefix| + |id|
    ensures key[..|KeyPrefix|] == KeyPrefix && key[|KeyPrefix|..] == id
  {
    KeyPrefix + id
  }

  /** Distinct identifiers never share a storage key. */
  lemma KeyForInjective(a: string, b: string)
    requires KeyFor(a) == KeyFor(b)
    ensures a == b
  {
    assert a == KeyFor(a)[|KeyPrefix|..];
  }

  /** A valid identifier is never empty, never holds a slash and never holds a
      character that HTML escaping rewrites. */
  lemma ValidIdCharacters(id: string)
    requires ValidId(id)
    ensures 1 <= |id| <= MaxIdLength
    ensures forall c :: c in id ==> c != '/' && c != '&' && c != '<' && c != '>' && c != '"' && c != '\''
  {
    forall c | c in id
      ensures c != '/' && c != '&' && c != '<' && c != '>' && c != '"' && c != '\''
    {
      var i :| 0 <= i < |id| && id[i] == c;
      assert IsIdChar(id[i]);
    }
  }

  /** Sixty-five characters of the class are one too many. */
  lemma TooLongRejected(id: string)
    requires |id| == MaxIdLength + 1
    requires forall i :: 0 <= i < |id| ==> IsIdChar(id[i])
    ensures MatchesIdPattern(id) && !ValidId(id)
  {
  }

  /** The path is not percent-decoded, so an encoded slash stays in the segment
      and its `%` is outside the class: "a%2Fb" is rejected. */
  lemma EncodedSlashRejected()
    ensures !ValidId("a%2Fb")
  {
    assert !IsIdChar("a%2Fb"[1]);
  }

  /** A space is outside the class, so "abc def" is rejected. */
  lemma SpaceRejected()
    ensures !ValidId("abc def")
  {
    assert !IsIdChar("abc def"[3]);
  }

  /** The longest accepted identifier is accepted, and so is a one-character one. */
  lemma BoundaryLengthsAccepted(id: string)
    requires 1 <= |id| <= MaxIdLength
    requires forall i :: 0 <= i < |id| ==> IsIdChar(id[i])
    ensures ValidId(id)
  {
  }
}
