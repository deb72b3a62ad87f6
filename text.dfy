/**
 * The two string operations the registry's data depends on: `String.prototype.includes`
 * (the dashed-stroke rule tests a cardinality tag for "many") and the comma-separated
 * layout of a composite primary key such as "book_id, author_id".
 */
module Text {

  /** JavaScript's `s.includes(p)`, read left to right. */
  predicate Includes(s: string, p: string)
    decreases |s|
  {
    |p| <= |s| && (s[..|p|] == p || Includes(s[1..], p))
  }

  /** `p` occurs in `s` starting at offset `i`. */
  predicate OccursAt(s: string, p: string, i: int)
  {
    0 <= i <= |s| - |p| && s[i..i + |p|] == p
  }

  /** An occurrence at any offset is found by `Includes`. */
  lemma {:induction false} OccursIncludes(s: string, p: string, i: int)
    requires OccursAt(s, p, i)
    ensures Includes(s, p)
    decreases i
  {
    if i == 0 {
      assert s[..|p|] == s[i..i + |p|];
    } else if s[..|p|] != p {
      assert s[1..][i - 1..i - 1 + |p|] == s[i..i + |p|];
      OccursIncludes(s[1..], p, i - 1);
    }
  }

  /** Whatever `Includes` finds is an occurrence at some offset. */
  lemma {:induction false} IncludesOccurs(s: string, p: string) returns (i: int)
    requires Includes(s, p)
    ensures OccursAt(s, p, i)
    decreases |s|
  {
    if s[..|p|] == p {
      i := 0;
    } else {
      var j := IncludesOccurs(s[1..], p);
      assert s[1..][j..j + |p|] == s[j + 1..j + 1 + |p|];
      i := j + 1;
    }
  }

  /** `Includes` agrees with the direct definition: `p` occurs at some offset of `s`. */
  lemma IncludesIffOccurs(s: string, p: string)
    ensures Includes(s, p) <==> exists i :: OccursAt(s, p, i)
  {
    forall i | OccursAt(s, p, i)
      ensures Includes(s, p)
    {
      OccursIncludes(s, p, i);
    }
    if Includes(s, p) {
      var i := IncludesOccurs(s, p);
    }
  }

  /** JavaScript's `s.split(sep)` for a one-character separator: never empty, and "" gives [""]. */
  function Split(s: string, sep: char): (parts: seq<string>)
    ensures |parts| >= 1
    decreases |s|
  {
    if |s| == 0 then [""]
    else if s[0] == sep then [""] + Split(s[1..], sep)
    else
      var rest := Split(s[1..], sep);
      [[s[0]] + rest[0]] + rest[1..]
  }

  /** A text without the separator splits into itself alone. */
  lemma {:induction false} SplitWithout(s: string, sep: char)
    requires sep !in s
    ensures Split(s, sep) == [s]
    decreases |s|
  {
    if |s| > 0 {
      SplitWithout(s[1..], sep);
      assert [s[0]] + s[1..] == s;
    }
  }

  /** The first separator ends the first part; the rest is split on its own. */
  lemma {:induction false} SplitAround(a: string, b: string, sep: char)
    requires sep !in a
    ensures Split(a + [sep] + b, sep) == [a] + Split(b, sep)
    decreases |a|
  {
    var s := a + [sep] + b;
    if |a| == 0 {
      assert s[1..] == b;
    } else {
      assert s[1..] == a[1..] + [sep] + b;
      SplitAround(a[1..], b, sep);
      assert [a[0]] + a[1..] == a;
    }
  }

  /** Drops leading spaces, like the left half of `String.prototype.trim`. */
  function TrimStart(s: string): string
    decreases |s|
  {
    if |s| > 0 && s[0] == ' ' then TrimStart(s[1..]) else s
  }

  /** A text that does not start with a space is left as it is. */
  lemma TrimStartUnspaced(s: string)
    requires |s| > 0 && s[0] != ' '
    ensures TrimStart(s) == s
  {
  }

  /** One leading space before unspaced text is dropped. */
  lemma TrimStartOneSpace(s: string)
    requires |s| > 0 && s[0] != ' '
    ensures TrimStart([' '] + s) == s
  {
    assert ([' '] + s)[1..] == s;
  }
}
