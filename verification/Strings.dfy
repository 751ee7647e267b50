/** The order in which the source sorts names: character by character. */
module Strings {
  import opened Basics

  predicate LexLess(a: string, b: string) {
    b != "" && (a == "" || a[0] < b[0] || (a[0] == b[0] && LexLess(a[1..], b[1..])))
  }

  lemma {:induction false} LexTrichotomy(a: string, b: string)
    ensures (if LexLess(a, b) then 1 else 0) + (if LexLess(b, a) then 1 else 0) + (if a == b then 1 else 0) == 1
  {
    if a != "" && b != "" {
      LexTrichotomy(a[1..], b[1..]);
      assert a == b <==> a[0] == b[0] && a[1..] == b[1..] by {
        assert a == [a[0]] + a[1..] && b == [b[0]] + b[1..];
      }
    }
  }

  lemma {:induction false} LexTransitive(a: string, b: string, c: string)
    requires LexLess(a, b) && LexLess(b, c)
    ensures LexLess(a, c)
  {
    if a != "" && a[0] == b[0] && b[0] == c[0] {
      LexTransitive(a[1..], b[1..], c[1..]);
    }
  }

  predicate StrictlyAscending(s: seq<string>) {
    forall i, j :: 0 <= i < j < |s| ==> LexLess(s[i], s[j])
  }

  lemma AscendingIsDistinct(s: seq<string>)
    requires StrictlyAscending(s)
    ensures Distinct(s)
  {
    forall i, j | 0 <= i < j < |s| ensures s[i] != s[j] {
      LexTrichotomy(s[i], s[j]);
    }
  }

  predicate IsLeast(k: string, keys: set<string>) {
    k in keys && forall j :: j in keys && j != k ==> LexLess(k, j)
  }

  lemma {:induction false} LeastExists(keys: set<string>)
    requires keys != {}
    ensures exists k :: IsLeast(k, keys)
    decreases keys
  {
    var x :| x in keys;
    if keys == {x} {
      assert IsLeast(x, keys);
    } else {
      var rest := keys - {x};
      LeastExists(rest);
      var y :| IsLeast(y, rest);
      LexTrichotomy(x, y);
      if LexLess(x, y) {
        forall j | j in keys && j != x ensures LexLess(x, j) {
          if j != y { LexTransitive(x, y, j); }
        }
        assert IsLeast(x, keys);
      } else {
        assert IsLeast(y, keys);
      }
    }
  }

  /** The names in ascending order. */
  ghost function SortKeys(keys: set<string>): (r: seq<string>)
    ensures StrictlyAscending(r)
    ensures forall k :: k in r <==> k in keys
    ensures |r| == |keys|
    decreases keys
  {
    if keys == {} then []
    else
      LeastExists(keys);
      var k :| IsLeast(k, keys);
      var rest := SortKeys(keys - {k});
      assert forall i :: 0 <= i < |rest| ==> rest[i] in rest;
      [k] + rest
  }

  /** There is only one ascending list of given names, so sorting hides the
      order in which a hash map yielded them. */
  lemma {:induction false} SortedIsUnique(keys: set<string>, s: seq<string>)
    requires StrictlyAscending(s) && forall k :: k in s <==> k in keys
    ensures s == SortKeys(keys)
    decreases keys
  {
    if s == [] {
      assert forall k :: k !in keys;
    } else {
      assert s[0] in s;
      LeastExists(keys);
      var r := SortKeys(keys);
      assert r[0] in s && s[0] in r;
      if s[0] != r[0] {
        LexTrichotomy(s[0], r[0]);
      }
      var rest := keys - {s[0]};
      forall k ensures k in s[1..] <==> k in rest {
        assert s == [s[0]] + s[1..];
        LexTrichotomy(s[0], s[0]);
      }
      SortedIsUnique(rest, s[1..]);
    }
  }

  /** Sorting by repeatedly taking the least name that is left. */
  method SortNames(keys: set<string>) returns (r: seq<string>)
    ensures r == SortKeys(keys)
  {
    r := [];
    var todo := keys;
    while todo != {}
      invariant todo <= keys
      invariant StrictlyAscending(r)
      invariant forall k :: k in r <==> k in keys - todo
      invariant forall k, t :: k in r && t in todo ==> LexLess(k, t)
      decreases todo
    {
      LeastExists(todo);
      var k :| IsLeast(k, todo);
      todo := todo - {k};
      r := r + [k];
    }
    SortedIsUnique(keys, r);
  }
}
