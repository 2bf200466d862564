/**
 * The JavaScript string operations the client relies on, restricted to ASCII:
 * `toLowerCase`, `trim`, `split`, `join`, `includes`, `endsWith`.
 */
module JsText {
  import opened Wrappers

  /** JavaScript truthiness of a string that may be null or undefined: present and non-empty. */
  predicate Truthy(v: Option<string>) {
    v.Some? && v.value != ""
  }

  /** ASCII `toLowerCase` of one character. */
  function LowerChar(c: char): char {
    if 'A' <= c <= 'Z' then (c as int + 32) as char else c
  }

  /** ASCII `String.prototype.toLowerCase`. */
  function Lower(s: string): (r: string)
    ensures |r| == |s|
    ensures forall i :: 0 <= i < |s| ==> r[i] == LowerChar(s[i])
  {
    seq(|s|, i requires 0 <= i < |s| => LowerChar(s[i]))
  }

  lemma LowerAppend(a: string, b: string)
    ensures Lower(a + b) == Lower(a) + Lower(b)
  {
    assert forall i :: 0 <= i < |a + b| ==> Lower(a + b)[i] == (Lower(a) + Lower(b))[i];
  }

  lemma LowerIdempotent(s: string)
    ensures Lower(Lower(s)) == Lower(s)
  {
  }

  /** A character that is not an ASCII letter occurs in the lowercased string exactly when it
      occurs in the original. */
  lemma LowerKeepsChar(s: string, d: char)
    requires !('A' <= d <= 'Z') && !('a' <= d <= 'z')
    ensures d in Lower(s) <==> d in s
  {
    if d in s {
      var i :| 0 <= i < |s| && s[i] == d;
      assert Lower(s)[i] == d;
    }
    if d in Lower(s) {
      var i :| 0 <= i < |s| && Lower(s)[i] == d;
      assert s[i] == d;
    }
  }

  /** The ASCII part of the whitespace set `String.prototype.trim` removes. */
  predicate IsSpace(c: char) {
    c == ' ' || c == '\t' || c == '\n' || c == '\r' || c as int == 11 || c as int == 12
  }

  /** `trimStart`: drop leading whitespace. */
  function TrimStart(s: string): (r: string)
    ensures |r| <= |s| && r == s[|s| - |r|..]
    ensures r != [] ==> !IsSpace(r[0])
    ensures r == [] <==> forall i :: 0 <= i < |s| ==> IsSpace(s[i])
  {
    if |s| > 0 && IsSpace(s[0]) then TrimStart(s[1..]) else s
  }

  /** `trimEnd`: drop trailing whitespace. */
  function TrimEnd(s: string): (r: string)
    ensures |r| <= |s| && r == s[..|r|]
    ensures r != [] ==> !IsSpace(r[|r| - 1])
    ensures r == [] <==> forall i :: 0 <= i < |s| ==> IsSpace(s[i])
  {
    if |s| > 0 && IsSpace(s[|s| - 1]) then TrimEnd(s[..|s| - 1]) else s
  }

  /** `String.prototype.trim`, ASCII whitespace only. */
  function Trim(s: string): string {
    TrimEnd(TrimStart(s))
  }

  /** `t` occurs in `s` starting at offset `k`. */
  predicate OccursAt(s: string, t: string, k: int) {
    0 <= k && k + |t| <= |s| && s[k..k + |t|] == t
  }

  /** Every character is whitespace (the empty string included). */
  predicate IsBlank(s: string) {
    forall i :: 0 <= i < |s| ==> IsSpace(s[i])
  }

  /** The trimmed string is a contiguous piece of the original, empty exactly
      for whitespace-only input. */
  lemma TrimProperties(s: string)
    ensures exists k :: OccursAt(s, Trim(s), k)
    ensures Trim(s) == [] <==> IsBlank(s)
  {
    var a := TrimStart(s);
    var k := |s| - |a|;
    assert OccursAt(s, Trim(s), k);
  }

  /** Every character of the trimmed string occurs in the original. */
  lemma TrimChars(s: string)
    ensures forall c :: c in Trim(s) ==> c in s
  {
    TrimProperties(s);
    var k :| OccursAt(s, Trim(s), k);
    forall c | c in Trim(s) ensures c in s {
      var i :| 0 <= i < |Trim(s)| && Trim(s)[i] == c;
      assert s[k + i] == c;
    }
  }

  /** `s.split(d)` for a one-character separator: never empty, and no piece contains `d`. */
  function Split(s: string, d: char): (r: seq<string>)
    ensures |r| >= 1
    ensures forall i :: 0 <= i < |r| ==> d !in r[i]
  {
    if |s| == 0 then [""]
    else
      var rest := Split(s[1..], d);
      if s[0] == d then [""] + rest
      else [[s[0]] + rest[0]] + rest[1..]
  }

  /** `xs.join(d)` for a one-character separator; `[].join(d)` is "". */
  function Join(xs: seq<string>, d: char): string {
    if |xs| == 0 then ""
    else if |xs| == 1 then xs[0]
    else xs[0] + [d] + Join(xs[1..], d)
  }

  /** The last element of a non-empty sequence (`Array.prototype.pop`'s result). */
  function Last<T>(xs: seq<T>): T
    requires |xs| > 0
  {
    xs[|xs| - 1]
  }

  /** Joining the pieces of a split gives back the original string. */
  lemma {:induction false} JoinSplit(s: string, d: char)
    ensures Join(Split(s, d), d) == s
  {
    if |s| > 0 {
      var c, t := s[0], s[1..];
      assert s == [c] + t;
      JoinSplit(t, d);
      SplitCons(c, t, d);
      if c == d {
        JoinEmptyHead(Split(t, d), d);
      } else {
        JoinExtendedHead(c, Split(t, d), d);
      }
    }
  }

  /** An empty first piece contributes only its separator. */
  lemma JoinEmptyHead(xs: seq<string>, d: char)
    requires |xs| >= 1
    ensures Join([""] + xs, d) == [d] + Join(xs, d)
  {
    assert ([""] + xs)[1..] == xs;
  }

  /** A character put in front of the first piece ends up in front of the join. */
  lemma JoinExtendedHead(c: char, xs: seq<string>, d: char)
    requires |xs| >= 1
    ensures Join([[c] + xs[0]] + xs[1..], d) == [c] + Join(xs, d)
  {
    var ys := [[c] + xs[0]] + xs[1..];
    assert ys[1..] == xs[1..];
  }

  /** A string without the separator splits into itself. */
  lemma {:induction false} SplitWithoutSeparator(s: string, d: char)
    requires d !in s
    ensures Split(s, d) == [s]
  {
    if |s| > 0 {
      SplitWithoutSeparator(s[1..], d);
      assert s == [s[0]] + s[1..];
    }
  }

  /** Splitting at an occurrence of the separator splits each side independently. */
  lemma {:induction false} SplitAppend(a: string, b: string, d: char)
    ensures Split(a + [d] + b, d) == Split(a, d) + Split(b, d)
  {
    if |a| == 0 {
      assert a + [d] + b == [d] + b;
      assert ([d] + b)[1..] == b;
    } else {
      SplitAppend(a[1..], b, d);
      SplitAppendStep(a[0], a[1..], b, d);
      assert a == [a[0]] + a[1..];
      assert a + [d] + b == [a[0]] + (a[1..] + [d] + b);
    }
  }

  /** The inductive step of `SplitAppend`: putting one more character in front. */
  lemma SplitAppendStep(c: char, a: string, b: string, d: char)
    requires Split(a + [d] + b, d) == Split(a, d) + Split(b, d)
    ensures Split([c] + (a + [d] + b), d) == Split([c] + a, d) + Split(b, d)
  {
    if c == d {
      SplitAppendSeparator(c, a + [d] + b, Split(a, d), Split(b, d), d);
      SplitCons(c, a, d);
    } else {
      SplitAppendOther(c, a + [d] + b, Split(a, d), Split(b, d), d);
      SplitCons(c, a, d);
    }
  }

  /** A leading separator opens an empty first piece. */
  lemma SplitAppendSeparator(c: char, t: string, ra: seq<string>, rb: seq<string>, d: char)
    requires c == d && Split(t, d) == ra + rb
    ensures Split([c] + t, d) == [""] + ra + rb
  {
    SplitCons(c, t, d);
  }

  /** Any other leading character joins the first piece. */
  lemma SplitAppendOther(c: char, t: string, ra: seq<string>, rb: seq<string>, d: char)
    requires c != d && Split(t, d) == ra + rb && |ra| >= 1
    ensures Split([c] + t, d) == [[c] + ra[0]] + ra[1..] + rb
  {
    SplitCons(c, t, d);
    assert (ra + rb)[0] == ra[0];
    assert (ra + rb)[1..] == ra[1..] + rb;
  }

  /** One step of `Split`: the first character either ends the first piece or joins it. */
  lemma SplitCons(c: char, s: string, d: char)
    ensures Split([c] + s, d)
         == if c == d then [""] + Split(s, d) else [[c] + Split(s, d)[0]] + Split(s, d)[1..]
  {
    assert ([c] + s)[1..] == s;
  }

  /** Splitting a join of separator-free pieces gives back the pieces. */
  lemma {:induction false} SplitJoin(xs: seq<string>, d: char)
    requires |xs| >= 1
    requires forall i :: 0 <= i < |xs| ==> d !in xs[i]
    ensures Split(Join(xs, d), d) == xs
  {
    SplitWithoutSeparator(xs[0], d);
    if |xs| > 1 {
      SplitJoin(xs[1..], d);
      SplitAppend(xs[0], Join(xs[1..], d), d);
      assert xs == [xs[0]] + xs[1..];
    }
  }

  /** The join of a sequence is the join of a proper prefix, a separator, and the join of the rest. */
  lemma {:induction false} JoinAt(xs: seq<string>, k: nat, d: char)
    requires 0 < k < |xs|
    ensures Join(xs, d) == Join(xs[..k], d) + [d] + Join(xs[k..], d)
  {
    if k > 1 {
      JoinAt(xs[1..], k - 1, d);
      assert xs[1..][..k - 1] == xs[..k][1..];
      assert xs[1..][k - 1..] == xs[k..];
    }
  }

  /** Joining any prefix of the pieces yields a prefix of the whole join. */
  lemma JoinPrefix(xs: seq<string>, k: nat, d: char)
    requires k <= |xs|
    ensures Join(xs[..k], d) <= Join(xs, d)
  {
    if k == |xs| {
      assert xs[..k] == xs;
    } else if k > 0 {
      JoinAt(xs, k, d);
    }
  }

  /** `s.startsWith(p)` */
  predicate StartsWith(s: string, p: string) {
    p <= s
  }

  /** `s.endsWith(suffix)` */
  predicate EndsWith(s: string, suffix: string) {
    |suffix| <= |s| && s[|s| - |suffix|..] == suffix
  }

  /** `hay.includes(needle)`: needle occurs at some offset of hay. */
  predicate Includes(hay: string, needle: string)
    decreases |hay|
  {
    StartsWith(hay, needle) || (|hay| > 0 && Includes(hay[1..], needle))
  }

  /** `hay.includes(needle)` holds exactly when the needle occurs at some offset of hay. */
  lemma IncludesMeansOccurs(hay: string, needle: string)
    ensures Includes(hay, needle) <==> exists i :: OccursAt(hay, needle, i)
  {
    if Includes(hay, needle) {
      IncludesHasOffset(hay, needle);
    }
    if exists i :: OccursAt(hay, needle, i) {
      var i :| OccursAt(hay, needle, i);
      OffsetIsIncluded(hay, needle, i);
    }
  }

  /** When `hay.includes(needle)`, the needle occurs at some offset of hay. */
  lemma {:induction false} IncludesHasOffset(hay: string, needle: string)
    requires Includes(hay, needle)
    ensures exists i :: OccursAt(hay, needle, i)
    decreases |hay|
  {
    if StartsWith(hay, needle) {
      assert OccursAt(hay, needle, 0);
    } else {
      IncludesHasOffset(hay[1..], needle);
      var j :| OccursAt(hay[1..], needle, j);
      assert hay[1..][j..j + |needle|] == hay[j + 1..j + 1 + |needle|];
      assert OccursAt(hay, needle, j + 1);
    }
  }

  /** A needle occurring at any offset of hay is found by `hay.includes(needle)`. */
  lemma {:induction false} OffsetIsIncluded(hay: string, needle: string, i: int)
    requires OccursAt(hay, needle, i)
    ensures Includes(hay, needle)
    decreases i
  {
    if i == 0 {
      assert StartsWith(hay, needle);
    } else {
      assert hay[1..][i - 1..i - 1 + |needle|] == hay[i..i + |needle|];
      OffsetIsIncluded(hay[1..], needle, i - 1);
    }
  }
}
