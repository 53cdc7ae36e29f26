/**
 * The note identifier of a request is the first non-empty segment of the URL's
 * path: `url.pathname.split('/').filter(p => p)[0]` (src/index.js, lines 9-10).
 */
module Paths {
  import opened Wrappers

  /** JavaScript's `s.split(sep)` for a one-character separator. */
  function Split(s: string, sep: char): (parts: seq<string>)
    ensures |parts| >= 1
    decreases |s|
  {
    if |s| == 0 then [""]
    else
      var rest := Split(s[1..], sep);
      if s[0] == sep then [""] + rest else [[s[0]] + rest[0]] + rest[1..]
  }

  /** The inverse of Split: `parts.join(sep)`. */
  function Join(parts: seq<string>, sep: char): string
    requires |parts| >= 1
    decreases |parts|
  {
    if |parts| == 1 then parts[0] else parts[0] + [sep] + Join(parts[1..], sep)
  }

  /** `parts.filter(p => p)`: the empty string is the only falsy string. */
  function NonEmpty(parts: seq<string>): (kept: seq<string>)
    ensures |kept| <= |parts|
    ensures forall p :: p in kept ==> p != "" && p in parts
    ensures forall p :: p in parts && p != "" ==> p in kept
  {
    if |parts| == 0 then []
    else if parts[0] == "" then NonEmpty(parts[1..])
    else [parts[0]] + NonEmpty(parts[1..])
  }

  /** The filter keeps the order of the parts: filtering a concatenation is
      concatenating the filtered halves. */
  lemma {:induction false} NonEmptyConcat(a: seq<string>, b: seq<string>)
    ensures NonEmpty(a + b) == NonEmpty(a) + NonEmpty(b)
    decreases |a|
  {
    if |a| > 0 {
      assert (a + b)[1..] == a[1..] + b;
      NonEmptyConcat(a[1..], b);
    } else {
      assert a + b == b;
    }
  }

  /** `pathParts[0]`, which is `undefined` when the path has no non-empty segment. */
  function FirstSegment(path: string): (seg: Option<string>)
    ensures seg.Some? ==> seg.value != "" && '/' !in seg.value
  {
    var kept := NonEmpty(Split(path, '/'));
    SplitHasNoSeparator(path, '/');
    if |kept| == 0 then None else assert kept[0] in kept; Some(kept[0])
  }

  /** Joining the parts gives back the string that was split. */
  lemma {:induction false} JoinSplit(s: string, sep: char)
    ensures Join(Split(s, sep), sep) == s
    decreases |s|
  {
    if |s| > 0 {
      var rest := Split(s[1..], sep);
      JoinSplit(s[1..], sep);
      if s[0] == sep {
        assert Split(s, sep)[1..] == rest;
      } else if |rest| > 1 {
        assert Split(s, sep)[1..] == rest[1..];
        assert Join(rest, sep) == rest[0] + [sep] + Join(rest[1..], sep);
        assert s == [s[0]] + s[1..];
      } else {
        assert s == [s[0]] + s[1..];
      }
    }
  }

  /** No part produced by Split contains the separator. */
  lemma {:induction false} SplitHasNoSeparator(s: string, sep: char)
    ensures forall p :: p in Split(s, sep) ==> sep !in p
    decreases |s|
  {
    if |s| > 0 {
      SplitHasNoSeparator(s[1..], sep);
      var rest := Split(s[1..], sep);
      if s[0] != sep {
        assert sep !in rest[0];
        forall p | p in Split(s, sep) ensures sep !in p {
          if p != [s[0]] + rest[0] {
            assert p in rest[1..];
          }
        }
      }
    }
  }

  /** A leading separator only adds an empty part, which the filter drops;
      a leading non-separator starts a non-empty first segment. */
  lemma FirstSegmentStep(path: string)
    requires |path| > 0
    ensures path[0] == '/' ==> FirstSegment(path) == FirstSegment(path[1..])
    ensures path[0] != '/' ==> FirstSegment(path).Some? && FirstSegment(path).value[0] == path[0]
  {
    var rest := Split(path[1..], '/');
    if path[0] == '/' {
      assert Split(path, '/') == [""] + rest;
      assert NonEmpty([""] + rest) == NonEmpty(rest) by {
        assert ([""] + rest)[1..] == rest;
      }
    } else {
      var parts := Split(path, '/');
      assert parts[0] == [path[0]] + rest[0];
      assert NonEmpty(parts) == [parts[0]] + NonEmpty(parts[1..]);
    }
  }

  /** A path has no note identifier exactly when it consists of slashes only
      (this includes the empty path and "/"). */
  lemma {:induction false} NoSegmentIffOnlySlashes(path: string)
    ensures FirstSegment(path).None? <==> forall i :: 0 <= i < |path| ==> path[i] == '/'
    decreases |path|
  {
    if |path| > 0 {
      FirstSegmentStep(path);
      NoSegmentIffOnlySlashes(path[1..]);
      if path[0] == '/' {
        if forall i :: 0 <= i < |path[1..]| ==> path[1..][i] == '/' {
          forall i | 0 <= i < |path| ensures path[i] == '/' {
            if i > 0 { assert path[i] == path[1..][i - 1]; }
          }
        }
      }
    } else {
      assert NonEmpty(Split(path, '/')) == [];
    }
  }

  /** When a segment with no separator is followed by the end of the string or a
      separator, it is the first part of the split. */
  lemma {:induction false} SplitHead(seg: string, rest: string, sep: char)
    requires sep !in seg
    requires rest == "" || rest[0] == sep
    ensures Split(seg + rest, sep)[0] == seg
    decreases |seg|
  {
    if |seg| > 0 {
      SplitHead(seg[1..], rest, sep);
      assert (seg + rest)[1..] == seg[1..] + rest;
      assert seg == [seg[0]] + seg[1..];
    } else {
      assert seg + rest == rest;
    }
  }

  /** The first segment of `/.../seg/...` (any run of leading slashes, then a
      segment, then the end or a slash) is that segment. Together with
      NoSegmentIffOnlySlashes this determines FirstSegment on every path. */
  lemma {:induction false} FirstSegmentOf(slashes: string, seg: string, rest: string)
    requires forall i :: 0 <= i < |slashes| ==> slashes[i] == '/'
    requires seg != "" && '/' !in seg
    requires rest == "" || rest[0] == '/'
    ensures FirstSegment(slashes + seg + rest) == Some(seg)
    decreases |slashes|
  {
    var path := slashes + seg + rest;
    if |slashes| > 0 {
      FirstSegmentStep(path);
      assert path[1..] == slashes[1..] + seg + rest;
      FirstSegmentOf(slashes[1..], seg, rest);
    } else {
      assert path == seg + rest;
      SplitHead(seg, rest, '/');
      var parts := Split(path, '/');
      assert NonEmpty(parts) == [parts[0]] + NonEmpty(parts[1..]);
    }
  }
}
