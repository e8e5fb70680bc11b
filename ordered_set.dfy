/** A JavaScript `Set` as the world drivers use it for the pressed keys: a
    sequence without duplicates that remembers insertion order. `add` of a
    present element changes nothing (in particular not its position) and
    `delete` removes the element, keeping the others in their order. */
module OrderedSet {

  ghost predicate Distinct<T>(s: seq<T>)
  {
    forall i, j :: 0 <= i < j < |s| ==> s[i] != s[j]
  }

  /** `set.add(x)`. */
  function Add<T(==, !new)>(s: seq<T>, x: T): (r: seq<T>)
    ensures forall y :: y in r <==> y in s || y == x
    ensures x in s ==> r == s
    ensures x !in s ==> |r| == |s| + 1 && r[..|s|] == s && r[|s|] == x
    ensures Distinct(s) ==> Distinct(r)
  {
    if x in s then s else s + [x]
  }

  /** `set.delete(x)`. */
  function Delete<T(==, !new)>(s: seq<T>, x: T): (r: seq<T>)
    ensures forall y :: y in r <==> y in s && y != x
    ensures |r| <= |s|
    ensures |s| == 1 ==> r == (if s[0] == x then [] else s)
  {
    if s == [] then []
    else if s[0] == x then Delete(s[1..], x)
    else [s[0]] + Delete(s[1..], x)
  }

  /** Deleting keeps a sequence free of duplicates. */
  lemma {:induction false} DeleteDistinct<T(!new)>(s: seq<T>, x: T)
    requires Distinct(s)
    ensures Distinct(Delete(s, x))
  {
    if s != [] {
      assert Distinct(s[1..]) by {
        forall i, j | 0 <= i < j < |s[1..]| ensures s[1..][i] != s[1..][j] {
          assert s[1..][i] == s[i + 1] && s[1..][j] == s[j + 1];
        }
      }
      DeleteDistinct(s[1..], x);
      if s[0] != x {
        var t := Delete(s[1..], x);
        assert s[0] !in s[1..];
        assert s[0] !in t;
        forall i, j | 0 <= i < j < |[s[0]] + t| ensures ([s[0]] + t)[i] != ([s[0]] + t)[j] {
          if i == 0 {
            assert ([s[0]] + t)[j] == t[j - 1];
          } else {
            assert ([s[0]] + t)[i] == t[i - 1] && ([s[0]] + t)[j] == t[j - 1];
          }
        }
      }
    }
  }

  /** Deleting works element by element: the survivors of a concatenation are
      the survivors of each part, in the same order. With the one-element case
      in `Delete`'s contract this fixes the result completely: the others keep
      their relative order. */
  lemma {:induction false} DeleteAppend<T(!new)>(a: seq<T>, b: seq<T>, x: T)
    ensures Delete(a + b, x) == Delete(a, x) + Delete(b, x)
  {
    if a == [] {
      assert a + b == b;
    } else {
      assert (a + b)[0] == a[0];
      assert (a + b)[1..] == a[1..] + b;
      DeleteAppend(a[1..], b, x);
    }
  }

  /** Adding and then deleting an element that was absent gives back the
      original sequence, order included. */
  lemma {:induction false} AddThenDelete<T(!new)>(s: seq<T>, x: T)
    requires x !in s
    ensures Delete(Add(s, x), x) == s
  {
    if s == [] {
      assert Add(s, x) == [x];
      assert Delete([x], x) == Delete([x][1..], x);
    } else {
      var a := s + [x];
      assert Add(s, x) == a;
      assert a[0] == s[0] != x;
      assert a[1..] == s[1..] + [x];
      AddThenDelete(s[1..], x);
      assert Delete(a, x) == [s[0]] + Delete(a[1..], x);
    }
  }
}
