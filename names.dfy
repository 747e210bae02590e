/**
 * Ordered name lists and coefficient dictionaries, as the control system
 * keeps them: probe and drive lists fix the row and column order of every
 * matrix, and a degree of freedom maps names to real coefficients.
 */
module Names {
  import opened Outcomes

  /** No name occurs twice. */
  ghost predicate Distinct(xs: seq<string>)
  {
    forall i, j :: 0 <= i < j < |xs| ==> xs[i] != xs[j]
  }

  /** Python's `list.index`: the position of the first occurrence, or None (ValueError). */
  function IndexOf(xs: seq<string>, x: string): (r: Option<nat>)
    ensures r.None? <==> x !in xs
    ensures r.Some? ==> r.value < |xs| && xs[r.value] == x && x !in xs[..r.value]
  {
    if |xs| == 0 then None
    else if xs[0] == x then Some(0)
    else match IndexOf(xs[1..], x)
      case None => None
      case Some(i) =>
        assert xs[..i + 1] == [xs[0]] + xs[1..][..i];
        Some(i + 1)
  }

  /** Appending to a list does not move the names already in it. */
  lemma {:induction false} IndexOfAppend(xs: seq<string>, ys: seq<string>, x: string)
    requires x in xs
    ensures IndexOf(xs + ys, x) == IndexOf(xs, x)
  {
    if xs[0] != x {
      assert (xs + ys)[1..] == xs[1..] + ys;
      IndexOfAppend(xs[1..], ys, x);
    }
  }

  /** In a list without repeats, the index of the name at position i is i. */
  lemma IndexOfDistinct(xs: seq<string>, i: nat)
    requires Distinct(xs) && i < |xs|
    ensures IndexOf(xs, xs[i]) == Some(i)
  {
    var j := IndexOf(xs, xs[i]).value;
  }

  // ---------------------------------------------------------------------
  // append_str_if_unique

  /** What `append_str_if_unique` receives: one bare name, or the names of a list or a dict's keys. */
  datatype NameArg = Name(name: string) | Names(names: seq<string>)

  function Elements(arg: NameArg): seq<string>
  {
    match arg
    case Name(n) => [n]
    case Names(ns) => ns
  }

  /** The list after appending, one by one, each element not already present. */
  function Appended(existing: seq<string>, elements: seq<string>): seq<string>
  {
    if |elements| == 0 then existing
    else
      var acc := Appended(existing, elements[..|elements| - 1]);
      var e := elements[|elements| - 1];
      if e in acc then acc else acc + [e]
  }

  /**
   * The result keeps `existing` as a prefix, holds exactly the old names and the
   * elements, adds no repeat, and appends new names in the order in which
   * they first occur in `elements`.
   */
  lemma {:induction false} AppendedSpec(existing: seq<string>, elements: seq<string>)
    ensures var r := Appended(existing, elements);
      && |existing| <= |r| && r[..|existing|] == existing
      && (forall x :: x in r <==> x in existing || x in elements)
      && (Distinct(existing) ==> Distinct(r))
      && (forall i :: |existing| <= i < |r| ==> r[i] in elements && r[i] !in existing)
      && (forall i, j :: |existing| <= i < j < |r| ==>
            IndexOf(elements, r[i]).value < IndexOf(elements, r[j]).value)
  {
    if |elements| > 0 {
      var n := |elements| - 1;
      var es, e := elements[..n], elements[n];
      assert elements == es + [e];
      AppendedSpec(existing, es);
      var acc := Appended(existing, es);
      forall x | x in es
        ensures IndexOf(elements, x) == IndexOf(es, x)
      {
        IndexOfAppend(es, [e], x);
      }
      if e !in acc {
        var r := acc + [e];
        assert e !in es;
        assert IndexOf(elements, e) == Some(n) by {
          assert elements[..n] == es;
        }
        forall i | |existing| <= i < |acc|
          ensures IndexOf(elements, r[i]).value < n
        {
          assert r[i] == acc[i];
        }
        assert r[..|existing|] == acc[..|existing|];
      }
    }
  }

  /** `append_str_if_unique(existing, elements)`: returns the new contents of `existing`. */
  method AppendStrIfUnique(existing: seq<string>, elements: NameArg) returns (r: seq<string>)
    ensures r == Appended(existing, Elements(elements))
    ensures |existing| <= |r| && r[..|existing|] == existing
    ensures forall x :: x in r <==> x in existing || x in Elements(elements)
    ensures Distinct(existing) ==> Distinct(r)
  {
    var es := Elements(elements);
    r := existing;
    var i := 0;
    while i < |es|
      invariant 0 <= i <= |es|
      invariant r == Appended(existing, es[..i])
    {
      assert es[..i + 1][..i] == es[..i];
      if es[i] !in r {
        r := r + [es[i]];
      }
      i := i + 1;
    }
    assert es[..i] == es;
    AppendedSpec(existing, es);
  }

  // ---------------------------------------------------------------------
  // Coefficient dictionaries

  /** A dict from names to real coefficients, in iteration order. */
  type Coeffs = seq<(string, real)>

  function Keys(d: Coeffs): (ks: seq<string>)
    ensures |ks| == |d|
  {
    seq(|d|, i requires 0 <= i < |d| => d[i].0)
  }

  /** Keys are unique, as in any Python dict. */
  ghost predicate IsDict(d: Coeffs)
  {
    Distinct(Keys(d))
  }

  /** `d.get(k)`. */
  function Get(d: Coeffs, k: string): (r: Option<real>)
    ensures r.Some? <==> k in Keys(d)
    ensures IsDict(d) ==> forall i :: 0 <= i < |d| && d[i].0 == k ==> r == Some(d[i].1)
  {
    if |d| == 0 then None
    else
      assert Keys(d) == [d[0].0] + Keys(d[1..]);
      if d[0].0 == k then
        assert IsDict(d) ==> k !in Keys(d[1..]) by {
          if IsDict(d) {
            TailIsDict(d);
          }
        }
        assert forall i :: 0 < i < |d| ==> Keys(d[1..])[i - 1] == d[i].0;
        Some(d[0].1)
      else
        var r := Get(d[1..], k);
        assert IsDict(d) ==> IsDict(d[1..]) by {
          if IsDict(d) {
            TailIsDict(d);
          }
        }
        r
  }

  /** `del d[k]` (the removal half of `d.pop(k)`). */
  function Remove(d: Coeffs, k: string): (r: Coeffs)
    ensures forall x :: x in Keys(r) <==> x in Keys(d) && x != k
    ensures |r| <= |d|
  {
    if |d| == 0 then []
    else
      assert Keys(d) == [d[0].0] + Keys(d[1..]);
      if d[0].0 == k then Remove(d[1..], k)
      else
      assert Keys([d[0]] + Remove(d[1..], k)) == [d[0].0] + Keys(Remove(d[1..], k));
      [d[0]] + Remove(d[1..], k)
  }

  /** `d[k] = v`: overwrite in place when k is present, otherwise append. */
  function Put(d: Coeffs, k: string, v: real): (r: Coeffs)
    ensures forall x :: x in Keys(r) <==> x in Keys(d) || x == k
  {
    if |d| == 0 then
      assert Keys([(k, v)]) == [k];
      [(k, v)]
    else
      assert Keys(d) == [d[0].0] + Keys(d[1..]);
      if d[0].0 == k then
        assert Keys([(k, v)] + d[1..]) == [k] + Keys(d[1..]);
        [(k, v)] + d[1..]
      else
      assert Keys([d[0]] + Put(d[1..], k, v)) == [d[0].0] + Keys(Put(d[1..], k, v));
      [d[0]] + Put(d[1..], k, v)
  }

  lemma {:induction false} RemoveIsDict(d: Coeffs, k: string)
    requires IsDict(d)
    ensures IsDict(Remove(d, k))
    ensures Get(Remove(d, k), k).None?
    ensures forall x :: x != k ==> Get(Remove(d, k), x) == Get(d, x)
  {
    if |d| > 0 {
      TailIsDict(d);
      RemoveIsDict(d[1..], k);
      if d[0].0 != k {
        ConsIsDict(d[0], Remove(d[1..], k));
      }
    }
  }

  lemma {:induction false} PutIsDict(d: Coeffs, k: string, v: real)
    requires IsDict(d)
    ensures IsDict(Put(d, k, v))
    ensures Get(Put(d, k, v), k) == Some(v)
    ensures forall x :: x != k ==> Get(Put(d, k, v), x) == Get(d, x)
  {
    if |d| > 0 {
      TailIsDict(d);
      if d[0].0 == k {
        assert Put(d, k, v)[1..] == d[1..];
        assert k !in Keys(d[1..]) by {
          assert Keys(d) == [d[0].0] + Keys(d[1..]);
        }
        ConsIsDict((k, v), d[1..]);
      } else {
        PutIsDict(d[1..], k, v);
        ConsIsDict(d[0], Put(d[1..], k, v));
      }
    }
  }

  lemma TailIsDict(d: Coeffs)
    requires IsDict(d) && |d| > 0
    ensures IsDict(d[1..]) && d[0].0 !in Keys(d[1..])
  {
    assert Keys(d) == [d[0].0] + Keys(d[1..]);
    forall i, j | 0 <= i < j < |d| - 1
      ensures Keys(d[1..])[i] != Keys(d[1..])[j]
    {
      assert Keys(d)[i + 1] != Keys(d)[j + 1];
    }
    forall j | 0 <= j < |d| - 1
      ensures Keys(d[1..])[j] != d[0].0
    {
      assert Keys(d)[0] != Keys(d)[j + 1];
    }
  }

  lemma ConsIsDict(p: (string, real), d: Coeffs)
    requires IsDict(d) && p.0 !in Keys(d)
    ensures IsDict([p] + d)
  {
    assert Keys([p] + d) == [p.0] + Keys(d);
  }

  lemma KeysAppend(a: Coeffs, b: Coeffs)
    ensures Keys(a + b) == Keys(a) + Keys(b)
  {
  }

  /** Removing a key that is absent changes nothing. */
  lemma {:induction false} RemoveAbsent(d: Coeffs, k: string)
    requires k !in Keys(d)
    ensures Remove(d, k) == d
  {
    if |d| > 0 {
      assert Keys(d) == [d[0].0] + Keys(d[1..]);
      RemoveAbsent(d[1..], k);
      assert [d[0]] + d[1..] == d;
    }
  }

  /** Setting a key that is absent appends it at the end. */
  lemma {:induction false} PutAbsent(d: Coeffs, k: string, v: real)
    requires k !in Keys(d)
    ensures Put(d, k, v) == d + [(k, v)]
  {
    if |d| > 0 {
      assert Keys(d) == [d[0].0] + Keys(d[1..]);
      PutAbsent(d[1..], k, v);
      assert [d[0]] + (d[1..] + [(k, v)]) == d + [(k, v)];
    }
  }

  /** Looking up a key other than the last entry's ignores that entry. */
  lemma {:induction false} GetSnoc(d: Coeffs, p: (string, real), x: string)
    requires x != p.0
    ensures Get(d + [p], x) == Get(d, x)
  {
    if |d| > 0 {
      assert (d + [p])[1..] == d[1..] + [p];
      GetSnoc(d[1..], p, x);
    }
  }

  lemma PrefixIsDict(d: Coeffs, n: nat)
    requires IsDict(d) && n <= |d|
    ensures IsDict(d[..n]) && IsDict(d[n..])
  {
    assert Keys(d[..n]) == Keys(d)[..n];
    assert Keys(d[n..]) == Keys(d)[n..];
  }

  // ---------------------------------------------------------------------
  // Splitting a drive name at '.'

  /** `s.split('.')[0]`: the text before the first dot. */
  function FirstSegment(s: string): string
  {
    if |s| == 0 || s[0] == '.' then "" else [s[0]] + FirstSegment(s[1..])
  }

  /** `s.split('.')[-1]`: the text after the last dot. */
  function LastSegment(s: string): string
  {
    if |s| == 0 || s[|s| - 1] == '.' then "" else LastSegment(s[..|s| - 1]) + [s[|s| - 1]]
  }

  /** A drive name `k.t` built from a dot-free `k` splits back to `k` in front. */
  lemma {:induction false} FirstSegmentJoin(k: string, t: string)
    requires '.' !in k
    ensures FirstSegment(k + "." + t) == k
  {
    if |k| > 0 {
      assert (k + "." + t)[1..] == k[1..] + "." + t;
      FirstSegmentJoin(k[1..], t);
    }
  }

  /** A drive name `k.t` with a dot-free type `t` splits back to `t` at the end. */
  lemma {:induction false} LastSegmentJoin(k: string, t: string)
    requires '.' !in t
    ensures LastSegment(k + "." + t) == t
  {
    if |t| > 0 {
      var n := |t| - 1;
      assert (k + "." + t)[..|k + "." + t| - 1] == k + "." + t[..n];
      LastSegmentJoin(k, t[..n]);
      assert t[..n] + [t[n]] == t;
    }
  }
}
