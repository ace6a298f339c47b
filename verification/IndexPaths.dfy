/** Paths given by the choices made along them, and lists of such paths. */
module IndexPaths {

  function Prefixed(n: nat, ps: seq<seq<nat>>): (r: seq<seq<nat>>)
    ensures |r| == |ps| && forall j :: 0 <= j < |ps| ==> r[j] == [n] + ps[j]
  {
    seq(|ps|, j requires 0 <= j < |ps| => [n] + ps[j])
  }

  ghost predicate NoDuplicates<T>(s: seq<T>) {
    forall i, j :: 0 <= i < j < |s| ==> s[i] != s[j]
  }

  lemma {:induction false} PrefixedMember(n: nat, ps: seq<seq<nat>>, p: seq<nat>)
    ensures p in Prefixed(n, ps) <==> p != [] && p[0] == n && p[1..] in ps
  {
    if p in Prefixed(n, ps) {
      var j :| 0 <= j < |ps| && Prefixed(n, ps)[j] == p;
      assert p[1..] == ps[j];
    }
    if p != [] && p[0] == n && p[1..] in ps {
      var j :| 0 <= j < |ps| && ps[j] == p[1..];
      assert Prefixed(n, ps)[j] == p;
    }
  }

  lemma {:induction false} PrefixedDistinct(n: nat, ps: seq<seq<nat>>)
    requires NoDuplicates(ps)
    ensures NoDuplicates(Prefixed(n, ps))
  {
    forall i, j | 0 <= i < j < |ps| ensures Prefixed(n, ps)[i] != Prefixed(n, ps)[j] {
      assert ([n] + ps[i])[1..] == ps[i] && ([n] + ps[j])[1..] == ps[j];
    }
  }
}
