/** The order the project list is returned in. The platform's
    `by_user_updated` index is keyed on (owner, updatedAt); read in
    descending order, a user's projects come most recently updated first,
    and equal timestamps fall back to the later-created (higher) id. */
module ProjectList {
  import opened Schema

  /** `a` is listed before `b`: updated later, or updated at the same time
      and created later. */
  predicate Precedes(ps: map<ProjectId, Project>, a: ProjectId, b: ProjectId) {
    && a in ps && b in ps
    && (ps[a].updatedAt > ps[b].updatedAt
        || (ps[a].updatedAt == ps[b].updatedAt && a.n > b.n))
  }

  /** Strictly descending in listing order (hence free of repeats). */
  predicate SortedDesc(ps: map<ProjectId, Project>, s: seq<ProjectId>) {
    forall i, j :: 0 <= i < j < |s| ==> Precedes(ps, s[i], s[j])
  }

  /** Listing order is a strict total order on stored projects. */
  lemma PrecedesTotal(ps: map<ProjectId, Project>, a: ProjectId, b: ProjectId)
    requires a in ps && b in ps && a != b
    ensures Precedes(ps, a, b) != Precedes(ps, b, a)
  {
  }

  /** Places `x` in a descending listing that does not yet hold it. */
  function Insert(ps: map<ProjectId, Project>, x: ProjectId, s: seq<ProjectId>): (r: seq<ProjectId>)
    requires x in ps && x !in s
    requires forall y :: y in s ==> y in ps
    requires SortedDesc(ps, s)
    ensures |r| == |s| + 1
    ensures forall y :: y in r <==> y == x || y in s
    ensures SortedDesc(ps, r)
    decreases |s|
  {
    if s == [] then [x]
    else if Precedes(ps, x, s[0]) then
      assert forall j :: 0 < j < |s| ==> Precedes(ps, s[0], s[j]);
      [x] + s
    else
      var rest := Insert(ps, x, s[1..]);
      assert Precedes(ps, s[0], x) by { PrecedesTotal(ps, x, s[0]); }
      assert forall y :: y in s[1..] ==> Precedes(ps, s[0], y);
      [s[0]] + rest
  }

  /** The projects of `u` whose id is below `k`, in listing order. */
  function Listing(ps: map<ProjectId, Project>, u: UserId, k: nat): (r: seq<ProjectId>)
    ensures forall id :: id in r <==> id in ps && ps[id].userId == u && id.n < k
    ensures SortedDesc(ps, r)
  {
    if k == 0 then []
    else
      var s := Listing(ps, u, k - 1);
      var id := ProjectId(k - 1);
      if id in ps && ps[id].userId == u then Insert(ps, id, s) else s
  }

  /** The head of a descending listing precedes every other member. */
  lemma HeadPrecedes(ps: map<ProjectId, Project>, s: seq<ProjectId>, y: ProjectId)
    requires SortedDesc(ps, s)
    requires y in s && y != s[0]
    ensures Precedes(ps, s[0], y)
  {
  }

  lemma HeadIsMember(s: seq<ProjectId>)
    requires s != []
    ensures s[0] in s
  {
  }

  /** The listing order fixes the list: two descending listings of the same
      projects are the same sequence. */
  lemma {:induction false} SortedUnique(ps: map<ProjectId, Project>, a: seq<ProjectId>, b: seq<ProjectId>)
    requires SortedDesc(ps, a) && SortedDesc(ps, b)
    requires forall y :: y in a <==> y in b
    ensures a == b
    decreases |a|
  {
    if a != [] {
      assert b != [] by { assert a[0] in b; }
      if a[0] != b[0] {
        HeadPrecedes(ps, a, b[0]);
        HeadPrecedes(ps, b, a[0]);
        assert false;
      }
      forall y
        ensures y in a[1..] <==> y in b[1..]
      {
        if y in a[1..] {
          var i :| 1 <= i < |a| && a[i] == y;
          assert Precedes(ps, a[0], y);
          assert y in b;
        }
        if y in b[1..] {
          var j :| 1 <= j < |b| && b[j] == y;
          assert Precedes(ps, b[0], y);
          assert y in a;
        }
      }
      SortedUnique(ps, a[1..], b[1..]);
      assert a == [a[0]] + a[1..];
      assert b == [b[0]] + b[1..];
    } else if b != [] {
      HeadIsMember(b);
      assert false;
    }
  }
}
