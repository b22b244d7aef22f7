/**
 * A JavaScript `Set` keeps its members once each, in the order they were first
 * added. It is modelled here as a duplicate-free sequence: `Insert` is
 * `Set.prototype.add` and `Delete` is `Set.prototype.delete`.
 */
module OrderedSets {

  /** No member occurs twice: the first is not among the rest, and so on. */
  ghost predicate NoDup<T>(s: seq<T>) {
    |s| <= 1 || (s[0] !in s[1..] && NoDup(s[1..]))
  }

  /** `NoDup` is pairwise distinctness of positions. */
  lemma {:induction false} NoDupDistinct<T>(s: seq<T>)
    ensures NoDup(s) <==> forall i, j :: 0 <= i < j < |s| ==> s[i] != s[j]
  {
    if |s| > 1 {
      NoDupDistinct(s[1..]);
      if NoDup(s) {
        forall i, j | 0 <= i < j < |s| ensures s[i] != s[j] {
          if i == 0 {
            assert s[j] == s[1..][j - 1];
          } else {
            assert s[i] == s[1..][i - 1] && s[j] == s[1..][j - 1];
          }
        }
      } else if s[0] in s[1..] {
        var k :| 0 <= k < |s[1..]| && s[1..][k] == s[0];
        assert s[0] == s[k + 1];
      } else {
        var a, b :| 0 <= a < b < |s[1..]| && s[1..][a] == s[1..][b];
        assert s[a + 1] == s[b + 1];
      }
    }
  }

  /** `add`: a new member goes last; adding a present member changes nothing. */
  function Insert<T(==)>(s: seq<T>, x: T): (r: seq<T>)
    ensures x in r
    ensures |s| <= |r| <= |s| + 1 && r[..|s|] == s
    ensures x in s ==> r == s
  {
    if x in s then s else s + [x]
  }

  /** Adding keeps a set free of repetition. */
  lemma {:induction false} InsertNoDup<T>(s: seq<T>, x: T)
    requires NoDup(s)
    ensures NoDup(Insert(s, x))
  {
    if x !in s && s != [] {
      calc {
        Insert(s, x);
        s + [x];
        [s[0]] + (s[1..] + [x]);
      }
      assert (s + [x])[1..] == s[1..] + [x];
      assert s[1..] + [x] == Insert(s[1..], x);
      InsertNoDup(s[1..], x);
    }
  }

  /** `delete`: removes `x`, keeps every other member in its order. */
  function Delete<T(==)>(s: seq<T>, x: T): (r: seq<T>)
    ensures x !in r
    ensures |r| <= |s|
    ensures x !in s ==> r == s
  {
    if s == [] then []
    else if s[0] == x then Delete(s[1..], x)
    else
      assert x !in s ==> x !in s[1..] && s == [s[0]] + s[1..];
      [s[0]] + Delete(s[1..], x)
  }

  /** `delete` removes `x` and nothing else. */
  lemma {:induction false} DeleteMembers<T>(s: seq<T>, x: T)
    ensures forall y :: y in Delete(s, x) <==> y in s && y != x
  {
    if s != [] {
      DeleteMembers(s[1..], x);
      assert forall y :: y in s <==> y == s[0] || y in s[1..];
    }
  }

  /** Deleting keeps a set free of repetition. */
  lemma {:induction false} DeleteNoDup<T>(s: seq<T>, x: T)
    requires NoDup(s)
    ensures NoDup(Delete(s, x))
  {
    if s != [] {
      DeleteNoDup(s[1..], x);
      DeleteMembers(s[1..], x);
      if s[0] != x {
        var r := Delete(s[1..], x);
        assert ([s[0]] + r)[0] == s[0] && ([s[0]] + r)[1..] == r;
      }
    }
  }

  /** In a duplicate-free sequence, deleting the member at index `i` removes
      exactly that position and nothing else. */
  lemma {:induction false} DeleteAt<T>(s: seq<T>, i: nat)
    requires NoDup(s) && i < |s|
    ensures Delete(s, s[i]) == s[..i] + s[i + 1..]
  {
    if i == 0 {
      if |s| > 1 {
        assert s[0] !in s[1..];
      }
    } else {
      assert s[1..][i - 1] == s[i];
      DeleteAt(s[1..], i - 1);
      assert s[0] != s[i] by {
        assert s[i] in s[1..];
      }
      assert s[1..][..i - 1] + s[1..][i..] == s[1..i] + s[i + 1..];
      assert [s[0]] + (s[1..i] + s[i + 1..]) == s[..i] + s[i + 1..];
    }
  }

  /** Deleting the member just inserted into a set that lacked it restores the set. */
  lemma {:induction false} DeleteUndoesInsert<T>(s: seq<T>, x: T)
    requires x !in s
    ensures Delete(Insert(s, x), x) == s
  {
    if s == [] {
      assert Insert(s, x) == [x];
    } else {
      calc {
        Delete(Insert(s, x), x);
      ==  { assert Insert(s, x) == [s[0]] + (s[1..] + [x]); }
        Delete([s[0]] + (s[1..] + [x]), x);
      ==  { assert ([s[0]] + (s[1..] + [x]))[1..] == s[1..] + [x]; }
        [s[0]] + Delete(s[1..] + [x], x);
      ==  { assert Insert(s[1..], x) == s[1..] + [x]; DeleteUndoesInsert(s[1..], x); }
        [s[0]] + s[1..];
      ==
        s;
      }
    }
  }
}
