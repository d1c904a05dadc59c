/** The order in which a `std::map` keyed on names lists its keys. */
module NameOrder {

  predicate Less(a: string, b: string) {
    b != "" && (a == "" || a[0] < b[0] || (a[0] == b[0] && Less(a[1..], b[1..])))
  }

  lemma {:induction false} LessTransitive(a: string, b: string, c: string)
    requires Less(a, b) && Less(b, c)
    ensures Less(a, c)
  {
    if a != "" && a[0] == b[0] && b[0] == c[0] {
      LessTransitive(a[1..], b[1..], c[1..]);
    }
  }

  /** Of two names exactly one is less, unless they are equal. */
  lemma {:induction false} LessTotal(a: string, b: string)
    ensures a == b || Less(a, b) || Less(b, a)
    ensures Less(a, b) ==> a != b && !Less(b, a)
  {
    if a != "" && b != "" && a[0] == b[0] {
      LessTotal(a[1..], b[1..]);
      assert a == [a[0]] + a[1..] && b == [b[0]] + b[1..];
    }
  }

  predicate IsLeast(s: set<string>, k: string) {
    k in s && forall j | j in s && j != k :: Less(k, j)
  }

  lemma LeastExists(s: set<string>)
    requires s != {}
    ensures exists k :: IsLeast(s, k)
  {
    var x :| x in s;
    if s == {x} {
      assert IsLeast(s, x);
    } else {
      LeastExists(s - {x});
      var k :| IsLeast(s - {x}, k);
      LessTotal(x, k);
      if Less(x, k) {
        forall j | j in s && j != x
          ensures Less(x, j)
        {
          if j != k {
            LessTransitive(x, k, j);
          }
        }
        assert IsLeast(s, x);
      } else {
        assert IsLeast(s, k);
      }
    }
  }

  lemma LeastUnique(s: set<string>, j: string, k: string)
    requires IsLeast(s, j) && IsLeast(s, k)
    ensures j == k
  {
    LessTotal(j, k);
  }

  function Least(s: set<string>): (k: string)
    requires s != {}
    ensures k in s
  {
    LeastExists(s);
    assert forall j, k | IsLeast(s, j) && IsLeast(s, k) :: j == k by {
      forall j, k | IsLeast(s, j) && IsLeast(s, k)
        ensures j == k
      {
        LeastUnique(s, j, k);
      }
    }
    var k :| IsLeast(s, k);
    k
  }

  /** The names of a set in ascending order. */
  function InOrder(s: set<string>): (r: seq<string>) {
    if s == {} then [] else [Least(s)] + InOrder(s - {Least(s)})
  }

  predicate Ascending(keys: seq<string>) {
    forall i, j | 0 <= i < j < |keys| :: Less(keys[i], keys[j])
  }

  lemma {:induction false} InOrderHas(s: set<string>, k: string)
    ensures k in InOrder(s) <==> k in s
  {
    if s == {} {
    } else {
      InOrderHas(s - {Least(s)}, k);
    }
  }

  lemma LeastIs(s: set<string>)
    requires s != {}
    ensures IsLeast(s, Least(s))
  {
    LeastExists(s);
  }

  lemma {:induction false} InOrderAscends(s: set<string>)
    ensures Ascending(InOrder(s))
  {
    if s == {} {
    } else {
      var rest := InOrder(s - {Least(s)});
      InOrderAscends(s - {Least(s)});
      LeastIs(s);
      assert InOrder(s) == [Least(s)] + rest;
      forall i, j | 0 <= i < j < |InOrder(s)|
        ensures Less(InOrder(s)[i], InOrder(s)[j])
      {
        assert InOrder(s)[j] == rest[j - 1] && rest[j - 1] in rest;
        InOrderHas(s - {Least(s)}, rest[j - 1]);
      }
    }
  }

  predicate Distinct(keys: seq<string>) {
    forall i, j | 0 <= i < j < |keys| :: keys[i] != keys[j]
  }

  lemma InOrderDistinct(s: set<string>)
    ensures Distinct(InOrder(s))
  {
    var keys := InOrder(s);
    InOrderAscends(s);
    forall i, j | 0 <= i < j < |keys|
      ensures keys[i] != keys[j]
    {
      LessTotal(keys[i], keys[j]);
    }
  }

  /** Every name of the set is listed, once. */
  lemma Listed(s: set<string>)
    ensures forall k :: k in InOrder(s) <==> k in s
    ensures Distinct(InOrder(s))
  {
    forall k
      ensures k in InOrder(s) <==> k in s
    {
      InOrderHas(s, k);
    }
    InOrderDistinct(s);
  }
}
