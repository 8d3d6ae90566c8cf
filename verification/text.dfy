/**
 * Language-neutral string operations used by both the Python service and the
 * JavaScript server and client: prefix and substring tests, splitting on a single
 * separator character, joining, the piece after the last separator, ASCII case
 * mapping and decimal rendering of integers.
 */
module Text {
  import opened Wrappers

  /** `p` is a prefix of `s` (Python `startswith`, JavaScript `startsWith`). */
  predicate StartsWith(s: string, p: string) {
    |p| <= |s| && s[..|p|] == p
  }

  /** `p` is a suffix of `s`. */
  predicate EndsWith(s: string, p: string) {
    |p| <= |s| && s[|s| - |p|..] == p
  }

  /** `sub` occurs in `s` at a position `i` or later. */
  predicate ContainsFrom(s: string, sub: string, i: nat)
    decreases |s| - i
  {
    i + |sub| <= |s| && (s[i..i + |sub|] == sub || ContainsFrom(s, sub, i + 1))
  }

  /** `sub` is a substring of `s` (Python `in`, JavaScript `includes` on strings). */
  predicate Contains(s: string, sub: string) {
    ContainsFrom(s, sub, 0)
  }

  /** `sub` occurs in `s` at position `i`. */
  predicate OccursAt(s: string, sub: string, i: int) {
    0 <= i && i + |sub| <= |s| && s[i..i + |sub|] == sub
  }

  lemma {:induction false} ContainsFromIff(s: string, sub: string, i: nat)
    ensures ContainsFrom(s, sub, i) <==> exists j :: i <= j && OccursAt(s, sub, j)
    decreases |s| - i
  {
    if i + |sub| <= |s| {
      ContainsFromIff(s, sub, i + 1);
      if s[i..i + |sub|] == sub {
        assert OccursAt(s, sub, i);
      } else if exists j :: i <= j && OccursAt(s, sub, j) {
        var j :| i <= j && OccursAt(s, sub, j);
        assert j != i;
        assert i + 1 <= j && OccursAt(s, sub, j);
      }
    }
  }

  /** `Contains` is exactly "occurs at some position". */
  lemma ContainsIff(s: string, sub: string)
    ensures Contains(s, sub) <==> exists j :: OccursAt(s, sub, j)
  {
    ContainsFromIff(s, sub, 0);
  }

  /** A witness position establishes `Contains`. */
  lemma ContainsAt(s: string, sub: string, j: int)
    requires OccursAt(s, sub, j)
    ensures Contains(s, sub)
  {
    ContainsIff(s, sub);
  }

  lemma {:induction false} ContainsFromMissingChar(s: string, sub: string, i: nat, c: char)
    requires c in sub && c !in s
    ensures !ContainsFrom(s, sub, i)
    decreases |s| - i
  {
    if i + |sub| <= |s| {
      ContainsFromMissingChar(s, sub, i + 1, c);
    }
  }

  /** A string cannot contain a substring that has a character the string lacks. */
  lemma NotContainsMissingChar(s: string, sub: string, c: char)
    requires c in sub && c !in s
    ensures !Contains(s, sub)
  {
    ContainsFromMissingChar(s, sub, 0, c);
  }

  /** A substring of a part is a substring of the whole. */
  lemma ContainsInfix(a: string, b: string, c: string, sub: string)
    requires Contains(b, sub)
    ensures Contains(a + b + c, sub)
  {
    ContainsIff(b, sub);
    var j :| OccursAt(b, sub, j);
    assert (a + b + c)[|a| + j..|a| + j + |sub|] == b[j..j + |sub|];
    ContainsAt(a + b + c, sub, |a| + j);
  }

  /** The first position at which `sub` occurs in `s`, if any. */
  function Find(s: string, sub: string): (r: Option<nat>)
    ensures r.None? <==> !Contains(s, sub)
    ensures r.Some? ==> OccursAt(s, sub, r.value)
  {
    ContainsIff(s, sub);
    FindFrom(s, sub, 0)
  }

  function FindFrom(s: string, sub: string, i: nat): (r: Option<nat>)
    requires forall j :: 0 <= j < i ==> !OccursAt(s, sub, j)
    ensures r.None? <==> forall j :: i <= j ==> !OccursAt(s, sub, j)
    ensures r.Some? ==> i <= r.value && OccursAt(s, sub, r.value)
    ensures r.Some? ==> forall j :: 0 <= j < r.value ==> !OccursAt(s, sub, j)
    decreases |s| - i
  {
    if i + |sub| > |s| then None
    else if s[i..i + |sub|] == sub then
      assert OccursAt(s, sub, i);
      Some(i)
    else FindFrom(s, sub, i + 1)
  }

  /** The last piece of a left-to-right, non-overlapping split of `s` on `sep`: Python's `s.split(sep)[-1]`. */
  function LastPiece(s: string, sep: string): string
    requires |sep| > 0
    decreases |s|
  {
    match Find(s, sep)
    case None => s
    case Some(i) => LastPiece(s[i + |sep|..], sep)
  }

  /**
   * The last piece is a suffix of `s` holding no `sep`; when `s` holds `sep`
   * the piece is immediately preceded by one, and otherwise it is all of `s`.
   */
  lemma {:induction false} LastPieceSpec(s: string, sep: string)
    requires |sep| > 0
    ensures EndsWith(s, LastPiece(s, sep))
    ensures !Contains(LastPiece(s, sep), sep)
    ensures !Contains(s, sep) ==> LastPiece(s, sep) == s
    ensures Contains(s, sep) ==>
      |LastPiece(s, sep)| + |sep| <= |s| && OccursAt(s, sep, |s| - |LastPiece(s, sep)| - |sep|)
    decreases |s|
  {
    var f := Find(s, sep);
    if f.None? {
      assert EndsWith(s, s);
    } else {
      var i := f.value;
      var rest := s[i + |sep|..];
      LastPieceSpec(rest, sep);
      var r := LastPiece(rest, sep);
      assert LastPiece(s, sep) == r;
      LastPieceStep(s, sep, i, rest, r);
    }
  }

  lemma LastPieceStep(s: string, sep: string, i: nat, rest: string, r: string)
    requires |sep| > 0 && OccursAt(s, sep, i) && rest == s[i + |sep|..]
    requires EndsWith(rest, r)
    requires !Contains(rest, sep) ==> r == rest
    requires Contains(rest, sep) ==> |r| + |sep| <= |rest| && OccursAt(rest, sep, |rest| - |r| - |sep|)
    ensures EndsWith(s, r)
    ensures Contains(s, sep)
    ensures |r| + |sep| <= |s| && OccursAt(s, sep, |s| - |r| - |sep|)
  {
    ContainsAt(s, sep, i);
    assert s[|s| - |r|..] == rest[|rest| - |r|..];
    if Contains(rest, sep) {
      assert s[|s| - |r| - |sep|..|s| - |r|] == rest[|rest| - |r| - |sep|..|rest| - |r|];
    } else {
      assert |s| - |r| - |sep| == i;
    }
  }

  /** Two overlapping occurrences of `m` force its last character to repeat. */
  lemma OverlapRepeatsLast(s: string, m: string, p: int, q: int)
    requires OccursAt(s, m, p) && OccursAt(s, m, q) && p < q < p + |m|
    ensures m[|m| - 1] in m[..|m| - 1]
  {
    var k := p + |m| - 1 - q;
    assert s[q..q + |m|][k] == m[k];
    assert m[..|m| - 1][k] == m[k];
  }

  /** Occurrences of a marker whose last character is unique in it never overlap. */
  lemma OccurrencesApart(s: string, m: string, p: int, q: int)
    requires |m| > 0 && m[|m| - 1] !in m[..|m| - 1]
    requires OccursAt(s, m, p) && OccursAt(s, m, q) && p < q
    ensures p + |m| <= q
  {
    if q < p + |m| {
      OverlapRepeatsLast(s, m, p, q);
      assert false;
    }
  }

  /** An occurrence that starts inside a suffix is an occurrence in that suffix. */
  lemma OccurrenceInSuffix(s: string, m: string, t: string, i: int)
    requires EndsWith(s, t) && OccursAt(s, m, i) && |s| - |t| <= i
    ensures Contains(t, m)
  {
    var j := i - (|s| - |t|);
    assert t[j..j + |m|] == s[i..i + |m|];
    ContainsAt(t, m, j);
  }

  /**
   * When the last character of `m` occurs nowhere else in `m`, the last piece
   * of `x + m + y` on `m` is `y` whenever `y` holds no `m`.
   */
  lemma LastPieceAfterMarker(x: string, m: string, y: string)
    requires |m| > 0 && m[|m| - 1] !in m[..|m| - 1]
    requires !Contains(y, m)
    ensures LastPiece(x + m + y, m) == y
  {
    var s := x + m + y;
    var q := |x|;
    assert s[q..q + |m|] == m;
    assert EndsWith(s, y);
    ContainsAt(s, m, q);
    LastPieceSpec(s, m);
    var r := LastPiece(s, m);
    var p := |s| - |r| - |m|;
    if p < q {
      OccurrencesApart(s, m, p, q);
      OccurrenceInSuffix(s, m, r, q);
      assert false;
    } else if p > q {
      OccurrencesApart(s, m, q, p);
      OccurrenceInSuffix(s, m, y, p);
      assert false;
    }
  }

  /** Python slicing `s[n:]`: empty when `n` is past the end. */
  function DropPrefix(s: string, n: nat): (r: string)
    ensures n <= |s| ==> s == s[..n] + r
    ensures n >= |s| ==> r == ""
  {
    if n <= |s| then s[n..] else ""
  }

  /** Splits `s` on every occurrence of the character `c`, keeping empty pieces (Python `split('\n')`, JavaScript `split(',')`). */
  function Split(s: string, c: char): (r: seq<string>)
    ensures |r| >= 1
    ensures forall k :: 0 <= k < |r| ==> c !in r[k]
    decreases |s|
  {
    if |s| == 0 then [""]
    else if s[0] == c then [""] + Split(s[1..], c)
    else
      var rest := Split(s[1..], c);
      [[s[0]] + rest[0]] + rest[1..]
  }

  /** Concatenates `xs` with `sep` between consecutive elements (Python `sep.join`, JavaScript `join(sep)`). */
  function Join(xs: seq<string>, sep: string): string
    decreases |xs|
  {
    if |xs| == 0 then ""
    else if |xs| == 1 then xs[0]
    else xs[0] + sep + Join(xs[1..], sep)
  }

  /** Joining the pieces of a split with the separator gives back the original string. */
  lemma {:induction false} JoinSplit(s: string, c: char)
    ensures Join(Split(s, c), [c]) == s
    decreases |s|
  {
    if |s| > 0 {
      JoinSplit(s[1..], c);
      var rest := Split(s[1..], c);
      if s[0] == c {
        assert Split(s, c) == [""] + rest;
        assert s == [c] + s[1..];
      } else {
        var r := Split(s, c);
        assert r == [[s[0]] + rest[0]] + rest[1..];
        if |rest| == 1 {
          assert s == [s[0]] + rest[0];
        } else {
          assert rest == [rest[0]] + rest[1..];
          assert Join(rest, [c]) == rest[0] + [c] + Join(rest[1..], [c]);
          assert r[1..] == rest[1..];
        }
      }
    }
  }

  /** Splitting a join of separator-free pieces gives back the pieces. */
  lemma {:induction false} SplitJoin(xs: seq<string>, c: char)
    requires |xs| >= 1
    requires forall k :: 0 <= k < |xs| ==> c !in xs[k]
    ensures Split(Join(xs, [c]), c) == xs
    decreases |xs|, |xs[0]|
  {
    if |xs[0]| == 0 {
      if |xs| == 1 {
      } else {
        SplitJoin(xs[1..], c);
        var j := Join(xs, [c]);
        assert j == [c] + Join(xs[1..], [c]);
        assert j[1..] == Join(xs[1..], [c]);
        assert xs == [""] + xs[1..];
      }
    } else {
      var h := xs[0];
      var xs' := [h[1..]] + xs[1..];
      SplitJoin(xs', c);
      assert h[0] != c by { assert h[0] in h; }
      var j := Join(xs, [c]);
      if |xs| == 1 {
        assert j == [h[0]] + h[1..];
        assert j[1..] == Join(xs', [c]);
      } else {
        assert Join(xs', [c]) == h[1..] + [c] + Join(xs[1..], [c]);
        assert j == [h[0]] + Join(xs', [c]);
        assert j[1..] == Join(xs', [c]);
        assert xs'[1..] == xs[1..];
      }
      assert [h[0]] + h[1..] == h;
    }
  }

  /** A piece produced by a split is a substring of the split string. */
  lemma {:induction false} SplitPieceInfix(s: string, c: char, k: nat)
    requires k < |Split(s, c)|
    ensures Contains(s, Split(s, c)[k])
    decreases |s|
  {
    var r := Split(s, c);
    if |s| == 0 {
      assert OccursAt(s, r[k], 0);
      ContainsAt(s, r[k], 0);
    } else {
      var rest := Split(s[1..], c);
      if s[0] == c {
        if k == 0 {
          assert OccursAt(s, r[k], 0);
          ContainsAt(s, r[k], 0);
        } else {
          SplitPieceInfix(s[1..], c, k - 1);
          ContainsInfix([s[0]], s[1..], "", r[k]);
          assert [s[0]] + s[1..] + "" == s;
        }
      } else if k == 0 {
        SplitPieceInfix(s[1..], c, 0);
        ContainsIff(s[1..], rest[0]);
        var j :| OccursAt(s[1..], rest[0], j);
        // the first piece of the tail starts the tail
        SplitFirstPiecePrefix(s[1..], c);
        assert OccursAt(s, r[0], 0);
        ContainsAt(s, r[0], 0);
      } else {
        SplitPieceInfix(s[1..], c, k);
        ContainsInfix([s[0]], s[1..], "", r[k]);
        assert [s[0]] + s[1..] + "" == s;
      }
    }
  }

  /** A string without the separator splits into itself alone. */
  lemma {:induction false} SplitWithoutSeparator(s: string, c: char)
    requires c !in s
    ensures Split(s, c) == [s]
    decreases |s|
  {
    if |s| > 0 {
      assert s[0] in s;
      assert c !in s[1..] by {
        forall i | 0 <= i < |s[1..]| ensures s[1..][i] != c {
          assert s[1..][i] == s[i + 1];
        }
      }
      SplitWithoutSeparator(s[1..], c);
      assert [s[0]] + s[1..] == s;
    }
  }

  /** A string holding the separator splits into at least two pieces. */
  lemma {:induction false} SplitWithSeparator(s: string, c: char)
    requires c in s
    ensures |Split(s, c)| >= 2
    decreases |s|
  {
    if s[0] != c {
      assert c in s[1..] by {
        var i :| 0 <= i < |s| && s[i] == c;
        assert s[1..][i - 1] == c;
      }
      SplitWithSeparator(s[1..], c);
    }
  }

  /** The first piece of a split is a prefix of the split string. */
  lemma {:induction false} SplitFirstPiecePrefix(s: string, c: char)
    ensures StartsWith(s, Split(s, c)[0])
    decreases |s|
  {
    if |s| > 0 && s[0] != c {
      SplitFirstPiecePrefix(s[1..], c);
    }
  }

  /** `s` with its leading characters satisfying `ws` removed. */
  function TrimLeft(s: string, ws: char -> bool): (r: string)
    ensures EndsWith(s, r)
    ensures r == [] || !ws(r[0])
    ensures forall i :: 0 <= i < |s| - |r| ==> ws(s[i])
    decreases |s|
  {
    if |s| > 0 && ws(s[0]) then TrimLeft(s[1..], ws) else s
  }

  /** `s` with its trailing characters satisfying `ws` removed. */
  function TrimRight(s: string, ws: char -> bool): (r: string)
    ensures StartsWith(s, r)
    ensures r == [] || !ws(r[|r| - 1])
    ensures forall i :: |r| <= i < |s| ==> ws(s[i])
    decreases |s|
  {
    if |s| > 0 && ws(s[|s| - 1]) then TrimRight(s[..|s| - 1], ws) else s
  }

  /** `s` with leading and trailing characters satisfying `ws` removed (Python `strip`, JavaScript `trim`). */
  function Trim(s: string, ws: char -> bool): string {
    TrimRight(TrimLeft(s, ws), ws)
  }

  /** Trimming on the left stops at a character outside `ws`. */
  lemma TrimLeftStops(s: string, ws: char -> bool)
    requires |s| > 0 && !ws(s[0])
    ensures TrimLeft(s, ws) == s
  {
  }

  /** The trimmed string sits in `s` right after the characters trimmed on the left. */
  lemma TrimMiddle(s: string, ws: char -> bool)
    ensures var r := Trim(s, ws); var a := |s| - |TrimLeft(s, ws)|;
      0 <= a && a + |r| <= |s| && s[a..a + |r|] == r
  {
    var l := TrimLeft(s, ws);
    var r := TrimRight(l, ws);
    var a := |s| - |l|;
    assert l == s[a..];
    assert r == l[..|r|];
    forall i | 0 <= i < |r| ensures s[a + i] == r[i] {
      assert r[i] == l[i];
    }
  }

  /** The trimmed string neither starts nor ends with a `ws` character. */
  lemma TrimEnds(s: string, ws: char -> bool)
    ensures var r := Trim(s, ws); r == [] || (!ws(r[0]) && !ws(r[|r| - 1]))
  {
    var l := TrimLeft(s, ws);
    var r := TrimRight(l, ws);
    assert r == Trim(s, ws);
    if r != [] {
      assert StartsWith(l, r);
      assert l != [] && !ws(l[0]);
      assert r[0] == l[..|r|][0] == l[0];
      assert !ws(r[|r| - 1]);
    }
  }

  /** Only `ws` characters are cut, on either side. */
  lemma TrimCutsOnlyWhite(s: string, ws: char -> bool)
    ensures var r := Trim(s, ws); var a := |s| - |TrimLeft(s, ws)|;
      && (forall i :: 0 <= i < a ==> ws(s[i]))
      && (forall i :: a + |r| <= i < |s| ==> ws(s[i]))
  {
    var l := TrimLeft(s, ws);
    var r := TrimRight(l, ws);
    var a := |s| - |l|;
    assert l == s[a..];
    forall i | a + |r| <= i < |s| ensures ws(s[i]) {
      assert s[i] == l[i - a];
    }
  }

  /** The trimmed string is the middle of `s`: only `ws` characters are cut, and it neither starts nor ends with one. */
  lemma TrimSpec(s: string, ws: char -> bool)
    ensures var r := Trim(s, ws); var a := |s| - |TrimLeft(s, ws)|;
      && (r == [] || (!ws(r[0]) && !ws(r[|r| - 1])))
      && 0 <= a && a + |r| <= |s| && s[a..a + |r|] == r
      && (forall i :: 0 <= i < a ==> ws(s[i]))
      && (forall i :: a + |r| <= i < |s| ==> ws(s[i]))
  {
    TrimMiddle(s, ws);
    TrimEnds(s, ws);
    TrimCutsOnlyWhite(s, ws);
  }

  /** Trimming a string that neither starts nor ends with a `ws` character changes nothing. */
  lemma TrimNoop(s: string, ws: char -> bool)
    requires s == [] || (!ws(s[0]) && !ws(s[|s| - 1]))
    ensures Trim(s, ws) == s
  {
  }

  /** Trimming is idempotent. */
  lemma TrimIdempotent(s: string, ws: char -> bool)
    ensures Trim(Trim(s, ws), ws) == Trim(s, ws)
  {
    TrimSpec(s, ws);
    TrimNoop(Trim(s, ws), ws);
  }

  /** A string ending in a non-`ws` character trims to a non-empty string ending in that same character. */
  lemma TrimKeepsLast(s: string, ws: char -> bool)
    requires |s| > 0 && !ws(s[|s| - 1])
    ensures var r := Trim(s, ws); |r| > 0 && r[|r| - 1] == s[|s| - 1]
  {
    var l := TrimLeft(s, ws);
    assert |l| > 0 && l[|l| - 1] == s[|s| - 1];
  }

  /** `a` is a prefix of `a + b + c`. */
  lemma PrefixOfConcat(a: string, b: string, c: string)
    ensures StartsWith(a + b + c, a)
  {
    assert (a + b + c)[..|a|] == a;
  }

  /** `b` is a suffix of `a + b`. */
  lemma SuffixOfConcat(a: string, b: string)
    ensures EndsWith(a + b, b)
  {
    assert (a + b)[|a|..] == b;
  }

  /** A leading `ws` character does not change the trimmed string. */
  lemma TrimSkipsLeading(c: char, s: string, ws: char -> bool)
    requires ws(c)
    ensures Trim([c] + s, ws) == Trim(s, ws)
  {
    assert ([c] + s)[1..] == s;
  }

  /** Whatever occurs in a slice of `s` occurs in `s`. */
  lemma ContainsWithin(s: string, a: int, t: string, sub: string)
    requires 0 <= a && a + |t| <= |s| && s[a..a + |t|] == t
    requires Contains(t, sub)
    ensures Contains(s, sub)
  {
    ContainsIff(t, sub);
    var j :| OccursAt(t, sub, j);
    assert 0 <= j && j + |sub| <= |t|;
    forall i | 0 <= i < |sub| ensures s[a + j + i] == sub[i] {
      assert t[j + i] == sub[i];
    }
    assert s[a + j..a + j + |sub|] == sub;
    ContainsAt(s, sub, a + j);
  }

  /** Occurrence is transitive: what occurs in an occurring string occurs in the whole. */
  lemma ContainsTrans(s: string, mid: string, sub: string)
    requires Contains(s, mid) && Contains(mid, sub)
    ensures Contains(s, sub)
  {
    ContainsIff(s, mid);
    var j :| OccursAt(s, mid, j);
    ContainsWithin(s, j, mid, sub);
  }

  /** An occurrence lying inside a window of `s` occurs in the window. */
  lemma WindowOccurrence(s: string, a: nat, r: string, sub: string, j: nat)
    requires a + |r| <= |s| && s[a..a + |r|] == r
    requires a <= j && j + |sub| <= a + |r|
    requires OccursAt(s, sub, j)
    ensures Contains(r, sub)
  {
    forall k | 0 <= k < |sub| ensures r[j - a + k] == sub[k] {
      assert r[j - a + k] == s[j + k];
      assert s[j..j + |sub|][k] == s[j + k];
    }
    assert r[j - a..j - a + |sub|] == sub;
    ContainsAt(r, sub, j - a);
  }

  /** The first and last characters of an occurrence. */
  lemma OccurrenceEnds(s: string, sub: string, j: int)
    requires OccursAt(s, sub, j) && |sub| > 0
    ensures s[j] == sub[0] && s[j + |sub| - 1] == sub[|sub| - 1]
  {
    assert s[j..j + |sub|][0] == s[j];
    assert s[j..j + |sub|][|sub| - 1] == s[j + |sub| - 1];
  }

  /** An occurrence whose first and last characters are not `ws` survives trimming. */
  lemma TrimKeepsOccurrence(s: string, ws: char -> bool, sub: string, j: int)
    requires OccursAt(s, sub, j) && |sub| > 0 && !ws(sub[0]) && !ws(sub[|sub| - 1])
    ensures Contains(Trim(s, ws), sub)
  {
    TrimSpec(s, ws);
    OccurrenceEnds(s, sub, j);
    var r := Trim(s, ws);
    var a := |s| - |TrimLeft(s, ws)|;
    assert a <= j;
    assert j + |sub| <= a + |r|;
    WindowOccurrence(s, a, r, sub, j);
  }

  /** Trimming never introduces an occurrence. */
  lemma TrimContains(s: string, ws: char -> bool, sub: string)
    requires Contains(Trim(s, ws), sub)
    ensures Contains(s, sub)
  {
    TrimSpec(s, ws);
    ContainsWithin(s, |s| - |TrimLeft(s, ws)|, Trim(s, ws), sub);
  }

  /** Two strings with `ws` at the same positions trim their left ends by the same amount. */
  lemma {:induction false} TrimLeftSameShape(s: string, t: string, ws: char -> bool)
    requires |s| == |t| && forall i :: 0 <= i < |s| ==> ws(s[i]) == ws(t[i])
    ensures |TrimLeft(s, ws)| == |TrimLeft(t, ws)|
    decreases |s|
  {
    if |s| > 0 && ws(s[0]) {
      TrimLeftSameShape(s[1..], t[1..], ws);
    }
  }

  /** Two strings with `ws` at the same positions trim their right ends by the same amount. */
  lemma {:induction false} TrimRightSameShape(s: string, t: string, ws: char -> bool)
    requires |s| == |t| && forall i :: 0 <= i < |s| ==> ws(s[i]) == ws(t[i])
    ensures |TrimRight(s, ws)| == |TrimRight(t, ws)|
    decreases |s|
  {
    if |s| > 0 && ws(s[|s| - 1]) {
      TrimRightSameShape(s[..|s| - 1], t[..|t| - 1], ws);
    }
  }

  /** Two strings with `ws` at the same positions trim to the same length. */
  lemma TrimSameShape(s: string, t: string, ws: char -> bool)
    requires |s| == |t| && forall i :: 0 <= i < |s| ==> ws(s[i]) == ws(t[i])
    ensures |Trim(s, ws)| == |Trim(t, ws)|
  {
    TrimLeftSameShape(s, t, ws);
    var ls := TrimLeft(s, ws);
    var lt := TrimLeft(t, ws);
    var a := |s| - |ls|;
    assert ls == s[a..] && lt == t[a..];
    TrimRightSameShape(ls, lt, ws);
  }

  /** Python `s.rsplit(c, 1)[0]`: the text before the last `c`, or all of `s` when it holds none. */
  function BeforeLast(s: string, c: char): (r: string)
    ensures StartsWith(s, r)
    ensures c in s ==> |r| < |s| && s[|r|] == c && c !in s[|r| + 1..]
    ensures c !in s ==> r == s
    decreases |s|
  {
    if |s| == 0 then s
    else if s[|s| - 1] == c then s[..|s| - 1]
    else if c in s[..|s| - 1] then
      var r := BeforeLast(s[..|s| - 1], c);
      assert s[|r| + 1..] == s[..|s| - 1][|r| + 1..] + [s[|s| - 1]];
      r
    else
      assert s == s[..|s| - 1] + [s[|s| - 1]];
      s
  }

  /** A join of non-empty pieces that all end in a character satisfying `p` itself ends in such a character. */
  lemma {:induction false} JoinLast(xs: seq<string>, sep: string, p: char -> bool)
    requires |xs| > 0
    requires forall k :: 0 <= k < |xs| ==> |xs[k]| > 0 && p(xs[k][|xs[k]| - 1])
    ensures var j := Join(xs, sep); |j| > 0 && p(j[|j| - 1])
    decreases |xs|
  {
    if |xs| > 1 {
      JoinLast(xs[1..], sep, p);
      var t := Join(xs[1..], sep);
      assert (xs[0] + sep + t)[|xs[0] + sep + t| - 1] == t[|t| - 1];
    }
  }

  /** A join of pieces without the character `c`, using a separator without `c`, holds no `c`. */
  lemma {:induction false} JoinAvoids(xs: seq<string>, sep: string, c: char)
    requires c !in sep
    requires forall k :: 0 <= k < |xs| ==> c !in xs[k]
    ensures c !in Join(xs, sep)
    decreases |xs|
  {
    if |xs| > 1 {
      JoinAvoids(xs[1..], sep, c);
    }
  }

  /** Maps `A`–`Z` to `a`–`z` and leaves every other character alone. */
  function AsciiLowerChar(c: char): char {
    if 'A' <= c <= 'Z' then (c as int + 32) as char else c
  }

  /** Lower-cases the ASCII letters of `s` (Python `lower`, JavaScript `toLowerCase`, restricted to ASCII). */
  function AsciiLower(s: string): (r: string)
    ensures |r| == |s|
    ensures forall i :: 0 <= i < |s| ==> r[i] == AsciiLowerChar(s[i])
  {
    if s == [] then [] else [AsciiLowerChar(s[0])] + AsciiLower(s[1..])
  }

  /** A lower-case word that occurs in `s` occurs at the same place once `s` is lower-cased. */
  lemma AsciiLowerOccurs(s: string, sub: string, i: int)
    requires OccursAt(s, sub, i) && AsciiLower(sub) == sub
    ensures OccursAt(AsciiLower(s), sub, i)
  {
    var l := AsciiLower(s);
    forall k | 0 <= k < |sub| ensures l[i + k] == sub[k] {
      assert s[i + k] == sub[k];
    }
    assert l[i..i + |sub|] == sub;
  }

  /** A letter absent from `s` in both its cases is absent from the lower-cased `s`. */
  lemma AsciiLowerMissing(s: string, lower: char, upper: char)
    requires 'A' <= upper <= 'Z' && AsciiLowerChar(upper) == lower
    requires lower !in s && upper !in s
    ensures lower !in AsciiLower(s)
  {
    var l := AsciiLower(s);
    forall k | 0 <= k < |s| ensures l[k] != lower {
      assert s[k] != lower && s[k] != upper;
    }
  }

  /** Lower-casing twice is lower-casing once. */
  lemma AsciiLowerIdempotent(s: string)
    ensures AsciiLower(AsciiLower(s)) == AsciiLower(s)
  {
  }

  /** The decimal digits of a natural number, most significant first. */
  function NatToString(n: nat): (r: string)
    ensures |r| >= 1
    ensures forall i :: 0 <= i < |r| ==> '0' <= r[i] <= '9'
  {
    if n < 10 then ["0123456789"[n]]
    else NatToString(n / 10) + ["0123456789"[n % 10]]
  }

  /** Decimal rendering of an integer as Python `str` and JavaScript `String` produce it. */
  function IntToString(n: int): string {
    if n < 0 then "-" + NatToString(-n) else NatToString(n)
  }

  /** `xs` with every element equal to `x` removed, order kept (JavaScript `filter(v => v !== x)`). */
  function RemoveAll(xs: seq<string>, x: string): (r: seq<string>)
    ensures x !in r
    ensures |r| <= |xs|
    ensures forall y :: y != x ==> (y in r <==> y in xs)
  {
    if xs == [] then []
    else if xs[0] == x then RemoveAll(xs[1..], x)
    else [xs[0]] + RemoveAll(xs[1..], x)
  }
}
