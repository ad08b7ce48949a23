/** Small facts about finite sets and strict total orders on them. */
module Sets {

  lemma {:induction false} SubsetSize<T>(a: set<T>, b: set<T>)
    requires a <= b
    ensures |a| <= |b|
    ensures |a| == |b| ==> a == b
    decreases a
  {
    if a != {} {
      var x :| x in a;
      SubsetSize(a - {x}, b - {x});
    }
  }

  /** `lt` is a strict total order on the elements of `s`. */
  ghost predicate TotalOn<T(!new)>(lt: (T, T) -> bool, s: set<T>) {
    && (forall x :: x in s ==> !lt(x, x))
    && (forall x, y :: x in s && y in s && x != y ==> lt(x, y) || lt(y, x))
    && (forall x, y, z :: x in s && y in s && z in s && lt(x, y) && lt(y, z) ==> lt(x, z))
  }

  ghost predicate IsFirst<T(!new)>(lt: (T, T) -> bool, s: set<T>, x: T) {
    x in s && forall y :: y in s && y != x ==> lt(x, y)
  }

  ghost predicate IsLast<T(!new)>(lt: (T, T) -> bool, s: set<T>, x: T) {
    x in s && forall y :: y in s && y != x ==> lt(y, x)
  }

  lemma {:induction false} FirstExists<T(!new)>(lt: (T, T) -> bool, s: set<T>)
    requires s != {} && TotalOn(lt, s)
    ensures exists x :: IsFirst(lt, s, x)
    decreases s
  {
    var x :| x in s;
    if s == {x} {
      assert IsFirst(lt, s, x);
    } else {
      FirstExists(lt, s - {x});
      var y :| IsFirst(lt, s - {x}, y);
      assert IsFirst(lt, s, if lt(x, y) then x else y);
    }
  }

  lemma {:induction false} LastExists<T(!new)>(lt: (T, T) -> bool, s: set<T>)
    requires s != {} && TotalOn(lt, s)
    ensures exists x :: IsLast(lt, s, x)
    decreases s
  {
    var x :| x in s;
    if s == {x} {
      assert IsLast(lt, s, x);
    } else {
      LastExists(lt, s - {x});
      var y :| IsLast(lt, s - {x}, y);
      assert IsLast(lt, s, if lt(x, y) then y else x);
    }
  }
}
