/**
 * The list edits the client's filter and preference forms share: removing
 * every copy of a value (`list.filter(v => v !== value)`), and reading and
 * writing a selection as a comma-separated string.
 */
module Selection {
  import opened Text

  /** `xs.filter(v => v !== x)`: every copy of `x` removed, the rest in order. */
  function Without<T(==)>(xs: seq<T>, x: T): (r: seq<T>)
    ensures |r| <= |xs|
    ensures forall i :: 0 <= i < |r| ==> r[i] != x
    decreases |xs|
  {
    if xs == [] then []
    else (if xs[0] != x then [xs[0]] else []) + Without(xs[1..], x)
  }

  /** `Without` keeps exactly the elements different from `x`. */
  lemma {:induction false} WithoutKeepsOthers<T>(xs: seq<T>, x: T, y: T)
    ensures y in Without(xs, x) <==> y in xs && y != x
    decreases |xs|
  {
    if xs != [] {
      WithoutKeepsOthers(xs[1..], x, y);
      assert xs == [xs[0]] + xs[1..];
    }
  }

  /** `Without` keeps the order of what it keeps: it distributes over stretches. */
  lemma {:induction false} WithoutAppend<T>(a: seq<T>, b: seq<T>, x: T)
    ensures Without(a + b, x) == Without(a, x) + Without(b, x)
    decreases |a|
  {
    if a == [] {
      assert a + b == b;
    } else {
      WithoutAppend(a[1..], b, x);
      var head := if a[0] != x then [a[0]] else [];
      assert (a + b)[0] == a[0];
      assert (a + b)[1..] == a[1..] + b;
      assert Without(a + b, x) == head + (Without(a[1..], x) + Without(b, x));
      assert head + (Without(a[1..], x) + Without(b, x)) == (head + Without(a[1..], x)) + Without(b, x);
    }
  }

  /** Removing a value that is not there changes nothing. */
  lemma {:induction false} WithoutAbsent<T>(xs: seq<T>, x: T)
    requires x !in xs
    ensures Without(xs, x) == xs
    decreases |xs|
  {
    if xs != [] {
      WithoutAbsent(xs[1..], x);
      assert xs == [xs[0]] + xs[1..];
    }
  }

  /** Unchecking a value just checked in a list without it gives the list back. */
  lemma UncheckUndoesCheck<T>(xs: seq<T>, x: T)
    requires x !in xs
    ensures Without(xs + [x], x) == xs
  {
    WithoutAppend(xs, [x], x);
    WithoutAbsent(xs, x);
    assert Without([x], x) == [];
  }

  /**
   * A checkbox list change: checking appends the value, unchecking removes
   * every copy of it; every other value is kept.
   */
  function Toggle<T(==,!new)>(xs: seq<T>, value: T, checked: bool): (r: seq<T>)
    ensures forall v :: v in r <==> (v in xs && v != value) || (checked && v == value)
    ensures checked ==> |r| == |xs| + 1 && r[..|xs|] == xs
  {
    if checked then
      assert (xs + [value])[..|xs|] == xs;
      xs + [value]
    else
      assert forall v :: v in Without(xs, value) <==> v in xs && v != value by {
        forall v { WithoutKeepsOthers(xs, value, v); }
      }
      Without(xs, value)
  }

  /** `s ? s.split(',') : []`: the selection a comma-separated string holds. */
  function CommaList(s: string): (r: seq<string>)
    ensures s == "" <==> r == []
    ensures forall i :: 0 <= i < |r| ==> ',' !in r[i]
  {
    if s == "" then [] else Split(s, ',')
  }

  /** `xs.join(',')`. */
  function CommaJoin(xs: seq<string>): string {
    Join(xs, ",")
  }

  /** Reading back a written selection gives the selection, unless it is the single empty value. */
  lemma CommaRoundTrip(xs: seq<string>)
    requires forall i :: 0 <= i < |xs| ==> ',' !in xs[i]
    requires CommaJoin(xs) != ""
    ensures CommaList(CommaJoin(xs)) == xs
  {
    assert xs != [];
    SplitJoin(xs, ',');
  }

  /** Writing back a read selection gives the string. */
  lemma CommaListJoin(s: string)
    ensures CommaJoin(CommaList(s)) == s
  {
    if s != "" {
      JoinSplit(s, ',');
    }
  }
}
