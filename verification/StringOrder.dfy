/** Byte-wise string order and strictly sorted lists of names, as `sort.Strings` leaves a list without duplicates. */
module StringOrder {

  predicate Less(a: string, b: string) {
    b != [] && (a == [] || a[0] < b[0] || (a[0] == b[0] && Less(a[1..], b[1..])))
  }

  lemma {:induction false} LessTotal(a: string, b: string)
    ensures Less(a, b) || Less(b, a) || a == b
    ensures !(Less(a, b) && (Less(b, a) || a == b))
  {
    if a != [] && b != [] && a[0] == b[0] {
      LessTotal(a[1..], b[1..]);
      assert a[1..] == b[1..] ==> a == [a[0]] + a[1..] == [b[0]] + b[1..] == b;
    }
  }

  lemma {:induction false} LessTransitive(a: string, b: string, c: string)
    requires Less(a, b) && Less(b, c)
    ensures Less(a, c)
  {
    if a != [] && a[0] == b[0] == c[0] {
      LessTransitive(a[1..], b[1..], c[1..]);
    }
  }

  /** `a` is a proper prefix of `b`, or smaller at the first place where they differ. */
  lemma {:induction false} LessIff(a: string, b: string)
    ensures Less(a, b) <==> exists n :: 0 <= n <= |a| && n < |b| && a[..n] == b[..n] && (n == |a| || a[n] < b[n])
  {
    if Less(a, b) {
      var n := FirstDifference(a, b);
    }
    if n :| 0 <= n <= |a| && n < |b| && a[..n] == b[..n] && (n == |a| || a[n] < b[n]) {
      LessFrom(a, b, n);
    }
  }

  lemma {:induction false} FirstDifference(a: string, b: string) returns (n: nat)
    requires Less(a, b)
    ensures n <= |a| && n < |b| && a[..n] == b[..n] && (n == |a| || a[n] < b[n])
    decreases |a|
  {
    n := 0;
    if a != [] && a[0] >= b[0] {
      n := FirstDifference(a[1..], b[1..]);
      assert a[..n + 1] == [a[0]] + a[1..][..n] && b[..n + 1] == [b[0]] + b[1..][..n];
      n := n + 1;
    }
  }

  lemma {:induction false} LessFrom(a: string, b: string, n: nat)
    requires n <= |a| && n < |b| && a[..n] == b[..n] && (n == |a| || a[n] < b[n])
    ensures Less(a, b)
    decreases n
  {
    if n > 0 {
      assert a[0] == a[..n][0] == b[..n][0] == b[0];
      assert a[1..][..n - 1] == a[..n][1..] && b[1..][..n - 1] == b[..n][1..];
      LessFrom(a[1..], b[1..], n - 1);
    }
  }

  predicate StrictlySorted(s: seq<string>) {
    forall i, k :: 0 <= i < k < |s| ==> Less(s[i], s[k])
  }

  function Elements(s: seq<string>): set<string> {
    set x | x in s
  }

  /** A strictly sorted list is determined by the set of its elements. */
  lemma {:induction false} SortedUnique(a: seq<string>, b: seq<string>)
    requires StrictlySorted(a) && StrictlySorted(b) && Elements(a) == Elements(b)
    ensures a == b
    decreases |a|
  {
    NoElements(a);
    NoElements(b);
    if a != [] {
      assert a[0] in Elements(a);
      assert a[0] in Elements(b) && b[0] in Elements(a);
      var i :| 0 <= i < |b| && b[i] == a[0];
      var k :| 0 <= k < |a| && a[k] == b[0];
      LessTotal(a[0], b[0]);
      assert a[0] == b[0];
      TailElements(a);
      TailElements(b);
      SortedUnique(a[1..], b[1..]);
      assert a == [a[0]] + a[1..] && b == [b[0]] + b[1..];
    }
  }

  lemma NoElements(s: seq<string>)
    ensures Elements(s) == {} <==> s == []
  {
    assert s != [] ==> s[0] in Elements(s);
  }

  lemma TailElements(s: seq<string>)
    requires s != [] && StrictlySorted(s)
    ensures Elements(s[1..]) == Elements(s) - {s[0]}
  {
    forall x | x in s[1..] ensures x != s[0] {
      var i :| 0 <= i < |s[1..]| && s[1..][i] == x;
      LessTotal(s[0], s[i + 1]);
    }
    forall x | x in s && x != s[0] ensures x in s[1..] {
      var i :| 0 <= i < |s| && s[i] == x;
      assert s[1..][i - 1] == x;
    }
  }

  function Insert(s: seq<string>, x: string): (r: seq<string>)
    requires StrictlySorted(s) && x !in s
    ensures StrictlySorted(r) && Elements(r) == Elements(s) + {x}
  {
    if s == [] || Less(x, s[0]) then
      InsertFront(s, x);
      [x] + s
    else
      InsertBehind(s, x);
      [s[0]] + Insert(s[1..], x)
  }

  lemma InsertFront(s: seq<string>, x: string)
    requires StrictlySorted(s) && (s == [] || Less(x, s[0]))
    ensures StrictlySorted([x] + s) && Elements([x] + s) == Elements(s) + {x}
  {
    forall k | 0 < k < |s| ensures Less(x, s[k]) {
      LessTransitive(x, s[0], s[k]);
    }
  }

  /** Whatever the tail becomes, everything in it stays above the head. */
  lemma InsertBehind(s: seq<string>, x: string)
    requires StrictlySorted(s) && x !in s && s != [] && !Less(x, s[0])
    ensures StrictlySorted(s[1..]) && x !in s[1..]
    ensures forall t {:trigger Elements(t)} :: StrictlySorted(t) && Elements(t) == Elements(s[1..]) + {x} ==>
      StrictlySorted([s[0]] + t) && Elements([s[0]] + t) == Elements(s) + {x}
  {
    LessTotal(x, s[0]);
    TailElements(s);
    forall t | StrictlySorted(t) && Elements(t) == Elements(s[1..]) + {x}
      ensures StrictlySorted([s[0]] + t) && Elements([s[0]] + t) == Elements(s) + {x}
    {
      forall k | 0 <= k < |t| ensures Less(s[0], t[k]) {
        assert t[k] in Elements(t);
        if t[k] != x {
          var i :| 0 <= i < |s[1..]| && s[1..][i] == t[k];
        }
      }
      assert Elements([s[0]] + t) == {s[0]} + Elements(t);
    }
  }

  /** The names of a set in order: ranging over a Go map in any order and sorting gives this list. */
  ghost function Sorted(names: set<string>): (r: seq<string>)
    ensures StrictlySorted(r) && Elements(r) == names
  {
    if names == {} then []
    else
      var x :| x in names;
      var rest := Sorted(names - {x});
      assert x !in rest by { assert x !in Elements(rest); }
      Insert(rest, x)
  }

  method SortNames(names: set<string>) returns (r: seq<string>)
    ensures r == Sorted(names)
  {
    r := [];
    var pending := names;
    while pending != {}
      invariant pending <= names && StrictlySorted(r) && Elements(r) == names - pending
      decreases pending
    {
      var x :| x in pending;
      assert x !in r by { assert x !in Elements(r); }
      r := Insert(r, x);
      pending := pending - {x};
    }
    SortedUnique(r, Sorted(names));
  }
}
