/** Small facts about finite sets. */
module Sets {
  /** Some element of a set, as a loop over a set takes them. */
  method Any<T(==)>(s: set<T>) returns (x: T)
    requires s != {}
    ensures x in s
  {
    x :| x in s;
  }

  lemma CountWithout<T>(s: set<T>, x: T)
    ensures |s| == |s - {x}| + if x in s then 1 else 0
  {
    if x in s {
      assert s == s - {x} + {x};
    } else {
      assert s == s - {x};
    }
  }

  lemma {:induction false} SubsetCount<T>(a: set<T>, b: set<T>)
    requires a <= b
    ensures |a| <= |b| && (|a| == |b| ==> a == b)
  {
    if a != {} {
      var x :| x in a;
      SubsetCount(a - {x}, b - {x});
      if |a| == |b| {
        assert a == a - {x} + {x};
        assert b == b - {x} + {x};
      }
    }
  }
}
