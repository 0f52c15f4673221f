/** The string operations the handlers use on document ids:
    JavaScript's `String.prototype.split` and `Array.prototype.join` with a
    one-character separator, prefixes, and the raw (code-point) order the
    document store uses to compare document ids in a range query. */
module Strings {

  /** `s.split(sep)` for a one-character separator: the maximal pieces of `s`
      between separators, including empty pieces at either end and between
      adjacent separators. `"".split(sep)` is `[""]`. */
  function Split(s: string, sep: char): (parts: seq<string>)
    ensures |parts| >= 1
    ensures forall i :: 0 <= i < |parts| ==> sep !in parts[i]
    decreases |s|
  {
    if s == [] then [[]]
    else
      var rest := Split(s[1..], sep);
      if s[0] == sep then [[]] + rest
      else [[s[0]] + rest[0]] + rest[1..]
  }

  /** `parts.join(sep)`; the empty array joins to `""`. */
  function Join(parts: seq<string>, sep: char): (s: string)
    ensures |parts| == 1 ==> s == parts[0]
    ensures |parts| == 0 ==> s == []
  {
    if |parts| == 0 then []
    else if |parts| == 1 then parts[0]
    else parts[0] + [sep] + Join(parts[1..], sep)
  }

  /** Joining the pieces of a split with the same separator gives back the string. */
  lemma {:induction false} JoinSplit(s: string, sep: char)
    ensures Join(Split(s, sep), sep) == s
    decreases |s|
  {
    if s != [] {
      var rest := Split(s[1..], sep);
      JoinSplit(s[1..], sep);
      if s[0] == sep {
        assert Split(s, sep) == [[]] + rest;
        assert ([[]] + rest)[1..] == rest;
      } else {
        var parts := [[s[0]] + rest[0]] + rest[1..];
        assert Split(s, sep) == parts;
        if |rest| > 1 {
          assert parts[1..] == rest[1..];
          assert Join(rest, sep) == rest[0] + [sep] + Join(rest[1..], sep);
          assert Join(parts, sep) == [s[0]] + (rest[0] + [sep] + Join(rest[1..], sep));
        }
      }
    }
  }

  /** A string without the separator splits into itself alone. */
  lemma {:induction false} SplitNoSeparator(a: string, sep: char)
    requires sep !in a
    ensures Split(a, sep) == [a]
    decreases |a|
  {
    if a != [] {
      SplitNoSeparator(a[1..], sep);
      assert [a[0]] + a[1..] == a;
    }
  }

  /** Splitting at the first separator: the first piece is everything before it. */
  lemma {:induction false} SplitAtFirst(a: string, b: string, sep: char)
    requires sep !in a
    ensures Split(a + [sep] + b, sep) == [a] + Split(b, sep)
    decreases |a|
  {
    var s := a + [sep] + b;
    if a == [] {
      assert s[0] == sep && s[1..] == b;
    } else {
      SplitAtFirst(a[1..], b, sep);
      assert s[0] == a[0] && s[1..] == a[1..] + [sep] + b;
      assert [a[0]] + a[1..] == a;
    }
  }

  /** Splitting pieces that were joined gives back the pieces, provided no
      piece contains the separator. With `JoinSplit` this makes split and
      join inverse to each other. */
  lemma {:induction false} SplitJoin(parts: seq<string>, sep: char)
    requires |parts| >= 1
    requires forall i :: 0 <= i < |parts| ==> sep !in parts[i]
    ensures Split(Join(parts, sep), sep) == parts
    decreases |parts|
  {
    if |parts| == 1 {
      SplitNoSeparator(parts[0], sep);
    } else {
      SplitJoin(parts[1..], sep);
      SplitAtFirst(parts[0], Join(parts[1..], sep), sep);
      assert [parts[0]] + parts[1..] == parts;
    }
  }

  /** The position of the first `c` in `s`. */
  function IndexOf(s: string, c: char): (i: nat)
    requires c in s
    ensures i < |s| && s[i] == c && c !in s[..i]
  {
    if s[0] == c then 0
    else
      var j := IndexOf(s[1..], c);
      assert s[..j + 1] == [s[0]] + s[1..][..j];
      1 + j
  }

  /** `s.split(sep).slice(1).join(sep)`: `s` with its first piece and the
      separator after it removed; `""` when `s` has no separator. */
  function DropFirstPiece(s: string, sep: char): (rest: string)
    ensures sep !in s ==> rest == []
    ensures sep in s ==> rest == s[IndexOf(s, sep) + 1..]
  {
    if sep in s then
      var i := IndexOf(s, sep);
      assert s == s[..i] + [sep] + s[i + 1..];
      SplitAtFirst(s[..i], s[i + 1..], sep);
      assert Split(s, sep)[1..] == Split(s[i + 1..], sep);
      JoinSplit(s[i + 1..], sep);
      Join(Split(s, sep)[1..], sep)
    else
      SplitNoSeparator(s, sep);
      Join(Split(s, sep)[1..], sep)
  }

  lemma DropFirstPieceAfterSeparator(a: string, b: string, sep: char)
    requires sep !in a
    ensures DropFirstPiece(a + [sep] + b, sep) == b
  {
    SplitAtFirst(a, b, sep);
    assert Split(a + [sep] + b, sep)[1..] == Split(b, sep);
    JoinSplit(b, sep);
  }

  lemma DropFirstPieceWithoutSeparator(s: string, sep: char)
    requires sep !in s
    ensures DropFirstPiece(s, sep) == []
  {
    SplitNoSeparator(s, sep);
  }

  predicate HasPrefix(p: string, s: string)
  {
    |p| <= |s| && s[..|p|] == p
  }

  /** `a <= b` in the raw order of code points (a proper prefix comes first). */
  predicate LexLe(a: string, b: string)
    decreases |a|
  {
    if a == [] then true
    else if b == [] then false
    else if a[0] < b[0] then true
    else if b[0] < a[0] then false
    else LexLe(a[1..], b[1..])
  }

  /** When `d` is the character right after `c`, the strings between
      `p + [c]` and `p + [d]` inclusive are exactly those that start with
      `p + [c]`, plus `p + [d]` itself. */
  lemma {:induction false} BetweenAdjacent(p: string, c: char, d: char, k: string)
    requires d as int == c as int + 1
    ensures LexLe(p + [c], k) && LexLe(k, p + [d]) <==> HasPrefix(p + [c], k) || k == p + [d]
    decreases |p|
  {
    var lo, hi := p + [c], p + [d];
    if k == [] {
      assert !LexLe(lo, k);
    } else if p == [] {
      assert lo == [c] && hi == [d];
      assert LexLe(lo, k) <==> c <= k[0] by {
        if k[0] == c { assert lo[1..] == []; }
      }
      assert LexLe(k, hi) <==> k[0] < d || (k[0] == d && k[1..] == []) by {
        if k[0] == d {
          assert hi[1..] == [];
          assert LexLe(k[1..], []) <==> k[1..] == [];
        }
      }
      assert k[0] == d && k[1..] == [] <==> k == hi by {
        if k == hi { assert k[1..] == []; }
        if k[0] == d && k[1..] == [] { assert k == [k[0]] + k[1..]; }
      }
      assert HasPrefix(lo, k) <==> k[0] == c;
    } else {
      BetweenAdjacent(p[1..], c, d, k[1..]);
      assert lo[0] == p[0] && lo[1..] == p[1..] + [c];
      assert hi[0] == p[0] && hi[1..] == p[1..] + [d];
      if k[0] == p[0] {
        assert HasPrefix(lo, k) <==> HasPrefix(p[1..] + [c], k[1..]) by {
          if HasPrefix(p[1..] + [c], k[1..]) {
            assert k[..|lo|] == [k[0]] + k[1..][..|lo| - 1];
          }
          if HasPrefix(lo, k) {
            assert k[1..][..|lo| - 1] == k[..|lo|][1..];
          }
        }
        assert k == hi <==> k[1..] == p[1..] + [d] by {
          if k[1..] == p[1..] + [d] { assert k == [k[0]] + k[1..]; }
        }
      } else {
        assert |lo| <= |k| ==> k[..|lo|][0] == k[0];
      }
    }
  }
}
