/** Usernames in byte order: the order std::map and std::sort put them in. */
module Names {

  predicate Less(a: string, b: string) {
    b != "" && (a == "" || a[0] < b[0] || (a[0] == b[0] && Less(a[1..], b[1..])))
  }

  lemma {:induction false} Trichotomy(a: string, b: string)
    ensures Less(a, b) || a == b || Less(b, a)
    ensures !(Less(a, b) && Less(b, a))
    ensures !Less(a, a)
  {
    if a != "" {
      Trichotomy(a[1..], a[1..]);
    }
    if a != "" && b != "" {
      Trichotomy(a[1..], b[1..]);
      assert a == [a[0]] + a[1..] && b == [b[0]] + b[1..];
    }
  }

  lemma {:induction false} Transitive(a: string, b: string, c: string)
    requires Less(a, b) && Less(b, c)
    ensures Less(a, c)
  {
    if a == "" || a[0] != b[0] || b[0] != c[0] {
    } else {
      Transitive(a[1..], b[1..], c[1..]);
    }
  }

  /** a ends at position i where b goes on, or has the smaller character there; before it they agree. */
  predicate SmallerAt(a: string, b: string, i: nat) {
    i <= |a| && i < |b| && a[..i] == b[..i] && (i == |a| || a[i] < b[i])
  }

  ghost predicate Precedes(a: string, b: string) {
    exists i :: SmallerAt(a, b, i)
  }

  lemma {:induction false} SmallerIsLess(a: string, b: string, i: nat)
    requires SmallerAt(a, b, i)
    ensures Less(a, b)
  {
    if i == 0 {
    } else {
      assert a[0] == a[..i][0] == b[..i][0] == b[0];
      assert a[1..][..i - 1] == a[..i][1..] && b[1..][..i - 1] == b[..i][1..];
      SmallerIsLess(a[1..], b[1..], i - 1);
    }
  }

  lemma {:induction false} LessIsSmaller(a: string, b: string) returns (i: nat)
    requires Less(a, b)
    ensures SmallerAt(a, b, i)
  {
    if a == "" || a[0] < b[0] {
      i := 0;
    } else {
      var k := LessIsSmaller(a[1..], b[1..]);
      i := k + 1;
      assert a[..i] == [a[0]] + a[1..][..k] && b[..i] == [b[0]] + b[1..][..k];
    }
  }

  /** The order is that of the first difference; a name comes before its own extensions. */
  lemma LessIsByteOrder(a: string, b: string)
    ensures Less(a, b) <==> Precedes(a, b)
  {
    if Less(a, b) {
      var i := LessIsSmaller(a, b);
    }
    if i :| SmallerAt(a, b, i) {
      SmallerIsLess(a, b, i);
    }
  }

  /** Whatever follows, the first differing character decides. */
  lemma FirstDifferenceDecides(p: string, c: char, d: char, s: string, t: string)
    requires c < d
    ensures Less(p + [c] + s, p + [d] + t) && Less(p, p + [c] + s)
  {
    var a, b := p + [c] + s, p + [d] + t;
    assert a[..|p|] == p == b[..|p|] && p[..|p|] == p;
    SmallerIsLess(a, b, |p|);
    SmallerIsLess(p, a, |p|);
  }

  ghost predicate Ascending(s: seq<string>) {
    forall i, j :: 0 <= i < j < |s| ==> Less(s[i], s[j])
  }

  lemma AscendingDistinct(s: seq<string>, i: nat)
    requires Ascending(s) && i < |s|
    ensures s[i] !in s[..i]
  {
    Trichotomy(s[i], s[i]);
  }

  function Elements(s: seq<string>): set<string> {
    set x | x in s
  }

  /** Puts a name into an ascending list, once. */
  function Insert(s: seq<string>, x: string): seq<string> {
    if s == [] then [x]
    else if Less(x, s[0]) then [x] + s
    else if s[0] == x then s
    else [s[0]] + Insert(s[1..], x)
  }

  lemma {:induction false} InsertElements(s: seq<string>, x: string)
    ensures Elements(Insert(s, x)) == Elements(s) + {x}
  {
    if s == [] {
    } else {
      assert s == [s[0]] + s[1..];
      ElementsCons(s[0], s[1..]);
      if Less(x, s[0]) {
        ElementsCons(x, s);
      } else if s[0] != x {
        InsertElements(s[1..], x);
        ElementsCons(s[0], Insert(s[1..], x));
      }
    }
  }

  lemma ElementsCons(x: string, s: seq<string>)
    ensures Elements([x] + s) == {x} + Elements(s)
  {
  }

  lemma {:induction false} InsertKeepsOrder(s: seq<string>, x: string)
    requires Ascending(s)
    ensures Ascending(Insert(s, x))
    ensures Elements(Insert(s, x)) == Elements(s) + {x}
  {
    InsertElements(s, x);
    if s == [] {
    } else {
      var r := Insert(s, x);
      Trichotomy(x, s[0]);
      if Less(x, s[0]) {
        forall j | 0 < j < |r| ensures Less(x, r[j]) {
          if j > 1 {
            Transitive(x, s[0], s[j - 1]);
          }
        }
      } else if s[0] != x {
        var t := Insert(s[1..], x);
        InsertKeepsOrder(s[1..], x);
        forall j | 0 < j < |r| ensures Less(s[0], r[j]) {
          assert t[j - 1] in Elements(t);
          if r[j] != x {
            var k :| 0 <= k < |s[1..]| && s[1..][k] == r[j];
            assert s[k + 1] == r[j];
          }
        }
      }
    }
  }

  /** Ascending lists of the same names are the same list. */
  lemma {:induction false} AscendingUnique(s: seq<string>, t: seq<string>)
    requires Ascending(s) && Ascending(t) && Elements(s) == Elements(t)
    ensures s == t
  {
    assert t != [] ==> t[0] in Elements(t);
    if s == [] {
    } else {
      assert s[0] in Elements(t) && t != [];
      assert t[0] in Elements(s);
      var i :| 0 <= i < |s| && s[i] == t[0];
      var j :| 0 <= j < |t| && t[j] == s[0];
      Trichotomy(s[0], t[0]);
      assert i == 0 && j == 0;
      forall x ensures x in Elements(s[1..]) <==> x in Elements(t[1..]) {
        TailElements(s, x);
        TailElements(t, x);
      }
      AscendingUnique(s[1..], t[1..]);
      assert s == [s[0]] + s[1..] && t == [t[0]] + t[1..];
    }
  }

  lemma TailElements(s: seq<string>, x: string)
    requires Ascending(s) && s != []
    ensures x in Elements(s[1..]) <==> x in Elements(s) && x != s[0]
  {
    Trichotomy(x, x);
    if x in Elements(s) && x != s[0] {
      var i :| 0 <= i < |s| && s[i] == x;
      assert s[1..][i - 1] == x;
    }
    if x in Elements(s[1..]) {
      var i :| 0 <= i < |s[1..]| && s[1..][i] == x;
      assert s[i + 1] == x;
    }
  }

  /** The names in ascending order. */
  ghost function Ordered(names: set<string>): (s: seq<string>)
    ensures Ascending(s) && Elements(s) == names && forall x :: x in s <==> x in names
  {
    if names == {} then []
    else
      var x :| x in names;
      InsertKeepsOrder(Ordered(names - {x}), x);
      var s := Insert(Ordered(names - {x}), x);
      assert forall x :: x in s <==> x in Elements(s);
      s
  }

  /** Collects the keys of a map in ascending order, whatever order it yields them in. */
  method Sorted(names: set<string>) returns (s: seq<string>)
    ensures Ascending(s) && Elements(s) == names && s == Ordered(names)
    ensures forall i, j :: 0 <= i < j < |s| ==> Precedes(s[i], s[j])
  {
    s := [];
    var left := names;
    while left != {}
      invariant left <= names && Ascending(s) && Elements(s) == names - left
      decreases left
    {
      var x :| x in left;
      InsertKeepsOrder(s, x);
      s := Insert(s, x);
      left := left - {x};
    }
    AscendingUnique(s, Ordered(names));
    AscendingIsByteOrder(s);
  }

  lemma AscendingIsByteOrder(s: seq<string>)
    ensures Ascending(s) <==> forall i, j :: 0 <= i < j < |s| ==> Precedes(s[i], s[j])
  {
    hide Less, Precedes;
    forall i, j | 0 <= i < j < |s| ensures Less(s[i], s[j]) <==> Precedes(s[i], s[j]) {
      LessIsByteOrder(s[i], s[j]);
    }
  }

  lemma NoMembers<T>(s: set<T>)
    requires forall x :: x !in s
    ensures s == {}
  {
  }

  lemma SomeMember(s: set<int>)
    requires s != {}
    ensures exists x :: x in s
  {
    if forall x :: x !in s {
      NoMembers(s);
    }
  }
}
