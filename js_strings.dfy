/**
 * JavaScript's `String.prototype.split` with a one-character separator, and
 * `Array.prototype.join`, its inverse.
 */
module JsStrings {
  import opened Options

  /** `parts.join(sep)`. */
  function Join(parts: seq<string>, sep: char): string
    requires |parts| >= 1
    decreases |parts|
  {
    if |parts| == 1 then parts[0] else parts[0] + [sep] + Join(parts[1..], sep)
  }

  /**
   * `s.split(sep)`: the maximal separator-free pieces of `s`, in order. The
   * result is never empty; `"".split(":")` is `[""]`.
   */
  function Split(s: string, sep: char): (parts: seq<string>)
    ensures |parts| >= 1
    decreases |s|
  {
    if s == [] then [[]]
    else
      var rest := Split(s[1..], sep);
      if s[0] == sep then [[]] + rest
      else [[s[0]] + rest[0]] + rest[1..]
  }

  /** The pieces hold no separator, and joining them with it gives back the string. */
  lemma {:induction false} SplitPieces(s: string, sep: char)
    ensures forall i | 0 <= i < |Split(s, sep)| :: sep !in Split(s, sep)[i]
    ensures Join(Split(s, sep), sep) == s
    decreases |s|
  {
    if s != [] {
      var rest := Split(s[1..], sep);
      SplitPieces(s[1..], sep);
      if s[0] != sep {
        var parts := Split(s, sep);
        assert parts[1..] == rest[1..];
        assert parts[0] == [s[0]] + rest[0];
        if |rest| > 1 {
          assert Join(rest, sep) == rest[0] + [sep] + Join(rest[1..], sep);
          assert Join(parts, sep) == [s[0]] + Join(rest, sep);
        }
        assert s == [s[0]] + s[1..];
      }
    }
  }

  /** `parts[i]`, which is `undefined` past the end of the array. */
  function At(parts: seq<string>, i: nat): (r: Option<string>)
    ensures r.Some? <==> i < |parts|
    ensures r.Some? ==> r.value == parts[i]
  {
    if i < |parts| then Some(parts[i]) else None
  }

  /** Splitting what was joined gives back the pieces, provided none holds the separator. */
  lemma {:induction false} SplitJoin(parts: seq<string>, sep: char)
    requires |parts| >= 1
    requires forall i | 0 <= i < |parts| :: sep !in parts[i]
    ensures Split(Join(parts, sep), sep) == parts
    decreases |Join(parts, sep)|
  {
    var s := Join(parts, sep);
    SplitPieces(s, sep);
    if parts[0] == [] {
      if |parts| > 1 {
        assert s == [sep] + Join(parts[1..], sep);
        assert s[1..] == Join(parts[1..], sep);
        SplitJoin(parts[1..], sep);
      }
    } else {
      var c, t := parts[0][0], parts[0][1..];
      var shorter := [t] + parts[1..];
      assert shorter[1..] == parts[1..];
      assert parts[0] == [c] + t;
      assert s == [c] + Join(shorter, sep) by {
        if |parts| > 1 {
          assert s == ([c] + t) + [sep] + Join(parts[1..], sep);
        }
      }
      assert s[1..] == Join(shorter, sep);
      assert sep !in t by { assert forall k | 0 <= k < |t| :: t[k] == parts[0][k + 1]; }
      SplitJoin(shorter, sep);
      assert parts == [[c] + shorter[0]] + shorter[1..];
    }
  }

  /**
   * What the first two pieces of `s.split(sep)` are as text: the first piece is
   * everything before the first separator; there is a second piece exactly
   * when `s` has a separator, and it is what lies between the first separator
   * and the next one (or the end).
   */
  lemma SplitFields(s: string, sep: char)
    ensures var parts := Split(s, sep);
      && sep !in parts[0]
      && |parts[0]| <= |s|
      && parts[0] == s[..|parts[0]|]
      && (|parts| > 1 <==> sep in s)
      && (|parts| == 1 ==> parts[0] == s)
      && (|parts| > 1 ==>
            var k := |parts[0]| + 1 + |parts[1]|;
            && s[|parts[0]|] == sep
            && sep !in parts[1]
            && k <= |s|
            && s[|parts[0]| + 1..k] == parts[1]
            && (k == |s| || s[k] == sep))
  {
    var parts := Split(s, sep);
    SplitPieces(s, sep);
    if |parts| > 1 {
      var tail := Join(parts[1..], sep);
      assert s == parts[0] + [sep] + tail;
      assert tail[..|parts[1]|] == parts[1] by {
        if |parts| > 2 {
          assert tail == parts[1] + [sep] + Join(parts[2..], sep);
        }
      }
      var k := |parts[0]| + 1 + |parts[1]|;
      assert s[|parts[0]| + 1..] == tail;
      if k < |s| {
        assert |parts| > 2;
        assert tail == parts[1] + [sep] + Join(parts[2..], sep);
        assert s[k] == tail[|parts[1]|];
      }
    }
  }
}
