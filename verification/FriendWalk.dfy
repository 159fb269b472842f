/**
 Depth-limited search for a chain of friends (Erlang/les4_vk_api/src/vk.erl).
 The network request behind get_friends is a parameter: any function from a user to a list.
 */
module FriendWalk {

  type User = int
  type Graph = User -> seq<User>

  // --------------------------------------------------------------------- the code

  /** The clauses are tried in the order of the source: empty list, exhausted budget, last hop, general case. */
  function RecursiveWalk(friends: Graph, list: seq<User>, depth: int, resSet: set<User>, dst: User): set<User>
    requires -1 <= depth
    decreases depth, |list|
  {
    if list == [] then {}
    else if depth == -1 then {}
    else if depth == 0 then
      if list[0] == dst then resSet + {list[0]}
      else if list[0] > dst then {}
      else RecursiveWalk(friends, list[1..], 0, resSet, dst)
    else if list[0] == dst then resSet + {list[0]}
    else
      var result := RecursiveWalk(friends, list[1..], depth, resSet, dst);
      if result == {} && list[0] !in resSet then
        RecursiveWalk(friends, friends(list[0]), depth - 1, resSet + {list[0]}, dst)
      else result
  }

  function ConnectVk(friends: Graph, uid: User, did: User): set<User> {
    RecursiveWalk(friends, friends(uid), 6, {uid}, did)
  }

  // ------------------------------------------------------------ reference definitions

  ghost function Vertices(p: seq<User>): set<User> {
    set v | v in p
  }

  ghost predicate Distinct(p: seq<User>) {
    forall i, j | 0 <= i < j < |p| :: p[i] != p[j]
  }

  ghost predicate Sorted(list: seq<User>) {
    forall i, j | 0 <= i < j < |list| :: list[i] <= list[j]
  }

  ghost predicate SortedGraph(friends: Graph) {
    forall u :: Sorted(friends(u))
  }

  /** The last-hop scan stops at the first element above dst, so it sees dst only if none precedes it. */
  ghost predicate Visible(list: seq<User>, dst: User) {
    exists i | 0 <= i < |list| :: list[i] == dst && forall j | 0 <= j < i :: list[j] <= dst
  }

  ghost predicate Linked(friends: Graph, p: seq<User>) {
    forall i | 0 <= i < |p| - 1 :: p[i + 1] in friends(p[i])
  }

  /** The list in which the last vertex of p was found. */
  ghost function LastList(friends: Graph, list: seq<User>, p: seq<User>): seq<User>
    requires p != []
  {
    if |p| == 1 then list else friends(p[|p| - 2])
  }

  /** A simple path that starts in list, ends in dst, uses at most depth hops and avoids resSet on the way. */
  ghost predicate SimplePath(friends: Graph, list: seq<User>, depth: int, resSet: set<User>, dst: User, p: seq<User>) {
    && 0 < |p| <= depth + 1
    && p[0] in list
    && p[|p| - 1] == dst
    && Linked(friends, p)
    && Distinct(p)
    && forall i | 0 <= i < |p| - 1 :: p[i] !in resSet
  }

  /** A simple path the search can see: when it spends the whole budget, its end must be visible. */
  ghost predicate Route(friends: Graph, list: seq<User>, depth: int, resSet: set<User>, dst: User, p: seq<User>) {
    && SimplePath(friends, list, depth, resSet, dst, p)
    && (|p| == depth + 1 ==> Visible(LastList(friends, list, p), dst))
  }

  /** Any chain of friends from uid to did, repetitions allowed, of one to hops steps. */
  ghost predicate Chain(friends: Graph, uid: User, did: User, hops: nat, w: seq<User>) {
    && 2 <= |w| <= hops + 1
    && w[0] == uid
    && w[|w| - 1] == did
    && Linked(friends, w)
  }

  // ----------------------------------------------------------------- search = paths

  lemma RouteStep(friends: Graph, list: seq<User>, depth: int, resSet: set<User>, dst: User, p: seq<User>)
    requires |p| > 1
    ensures Route(friends, list, depth, resSet, dst, p) <==>
            && depth >= 1 && p[0] in list && p[0] != dst && p[0] !in resSet
            && Route(friends, friends(p[0]), depth - 1, resSet + {p[0]}, dst, p[1..])
  {
  }

  lemma RouteInTail(friends: Graph, list: seq<User>, depth: int, resSet: set<User>, dst: User, p: seq<User>)
    requires list != [] && Route(friends, list[1..], depth, resSet, dst, p)
    requires depth == 0 ==> list[0] <= dst
    ensures Route(friends, list, depth, resSet, dst, p)
  {
  }

  /** Soundness: a non-empty answer is the start set plus the vertices of one route. */
  lemma {:induction false} WalkYieldsRoute(friends: Graph, list: seq<User>, depth: int, resSet: set<User>, dst: User)
    returns (p: seq<User>)
    requires -1 <= depth
    requires RecursiveWalk(friends, list, depth, resSet, dst) != {}
    ensures Route(friends, list, depth, resSet, dst, p)
    ensures RecursiveWalk(friends, list, depth, resSet, dst) == resSet + Vertices(p)
    decreases depth, |list|
  {
    if list[0] == dst {
      p := [dst];
    } else if RecursiveWalk(friends, list[1..], depth, resSet, dst) != {} {
      p := WalkYieldsRoute(friends, list[1..], depth, resSet, dst);
      RouteInTail(friends, list, depth, resSet, dst, p);
    } else {
      var q := WalkYieldsRoute(friends, friends(list[0]), depth - 1, resSet + {list[0]}, dst);
      p := [list[0]] + q;
      assert p[1..] == q;
      RouteStep(friends, list, depth, resSet, dst, p);
      assert Vertices(p) == {list[0]} + Vertices(q) by {
        assert forall v :: v in p <==> v == list[0] || v in q;
      }
    }
  }

  /** Completeness: no route is missed. */
  lemma {:induction false} RouteIsFound(friends: Graph, list: seq<User>, depth: int, resSet: set<User>, dst: User,
                                        p: seq<User>)
    requires -1 <= depth
    requires Route(friends, list, depth, resSet, dst, p)
    ensures RecursiveWalk(friends, list, depth, resSet, dst) != {}
    decreases depth, |list|
  {
    if list[0] == dst {
      assert dst in resSet + {list[0]};
    } else if |p| == 1 {
      assert dst in list[1..];
      if depth == 0 {
        var i :| 0 <= i < |list| && list[i] == dst && forall j | 0 <= j < i :: list[j] <= dst;
        assert i > 0 && list[1..][i - 1] == dst;
        assert Visible(list[1..], dst);
        assert list[0] <= dst;
      }
      RouteIsFound(friends, list[1..], depth, resSet, dst, p);
    } else {
      RouteStep(friends, list, depth, resSet, dst, p);
      if p[0] == list[0] {
        RouteIsFound(friends, friends(p[0]), depth - 1, resSet + {p[0]}, dst, p[1..]);
      } else {
        RouteIsFound(friends, list[1..], depth, resSet, dst, p);
      }
    }
  }

  /** The search decides the existence of a route, on every graph, sorted or not. */
  lemma WalkDecidesRoutes(friends: Graph, list: seq<User>, depth: int, resSet: set<User>, dst: User)
    requires -1 <= depth
    ensures RecursiveWalk(friends, list, depth, resSet, dst) != {} <==>
            exists p :: Route(friends, list, depth, resSet, dst, p)
    ensures RecursiveWalk(friends, list, depth, resSet, dst) != {} ==>
            exists p :: Route(friends, list, depth, resSet, dst, p)
                        && RecursiveWalk(friends, list, depth, resSet, dst) == resSet + Vertices(p)
  {
    if RecursiveWalk(friends, list, depth, resSet, dst) != {} {
      var p := WalkYieldsRoute(friends, list, depth, resSet, dst);
    }
    if p :| Route(friends, list, depth, resSet, dst, p) {
      RouteIsFound(friends, list, depth, resSet, dst, p);
    }
  }

  lemma SortedListsShowAll(list: seq<User>, dst: User)
    requires Sorted(list)
    ensures Visible(list, dst) <==> dst in list
  {
  }

  /** On sorted lists the cut-off loses nothing: the search decides the existence of a simple path. */
  lemma SortedWalkDecidesPaths(friends: Graph, list: seq<User>, depth: int, resSet: set<User>, dst: User)
    requires -1 <= depth
    requires Sorted(list) && SortedGraph(friends)
    ensures RecursiveWalk(friends, list, depth, resSet, dst) != {} <==>
            exists p :: SimplePath(friends, list, depth, resSet, dst, p)
    ensures RecursiveWalk(friends, list, depth, resSet, dst) != {} ==>
            exists p :: SimplePath(friends, list, depth, resSet, dst, p)
                        && RecursiveWalk(friends, list, depth, resSet, dst) == resSet + Vertices(p)
  {
    WalkDecidesRoutes(friends, list, depth, resSet, dst);
    if p :| SimplePath(friends, list, depth, resSet, dst, p) {
      var last := LastList(friends, list, p);
      SortedListsShowAll(last, dst);
      if |p| > 1 {
        assert p[|p| - 2 + 1] in friends(p[|p| - 2]);
      }
      assert Route(friends, list, depth, resSet, dst, p);
    }
  }

  /** Which answer is given: a direct friend first, otherwise the latest list element that leads to dst. */
  lemma {:induction false} LaterElementsFirst(friends: Graph, list: seq<User>, depth: int, resSet: set<User>, dst: User)
    requires 0 < depth
    ensures dst in list ==> RecursiveWalk(friends, list, depth, resSet, dst) == resSet + {dst}
    ensures dst !in list && RecursiveWalk(friends, list, depth, resSet, dst) != {} ==>
            exists i | 0 <= i < |list| ::
              && list[i] !in resSet
              && RecursiveWalk(friends, list, depth, resSet, dst)
                 == RecursiveWalk(friends, friends(list[i]), depth - 1, resSet + {list[i]}, dst)
              && forall j | i < j < |list| && list[j] !in resSet ::
                   RecursiveWalk(friends, friends(list[j]), depth - 1, resSet + {list[j]}, dst) == {}
    decreases |list|
  {
    if list != [] && list[0] != dst {
      var tail := list[1..];
      LaterElementsFirst(friends, tail, depth, resSet, dst);
      if dst !in list && RecursiveWalk(friends, list, depth, resSet, dst) != {} {
        if RecursiveWalk(friends, tail, depth, resSet, dst) != {} {
          var k :| 0 <= k < |tail| && tail[k] !in resSet
                   && RecursiveWalk(friends, tail, depth, resSet, dst)
                      == RecursiveWalk(friends, friends(tail[k]), depth - 1, resSet + {tail[k]}, dst)
                   && forall j | k < j < |tail| && tail[j] !in resSet ::
                        RecursiveWalk(friends, friends(tail[j]), depth - 1, resSet + {tail[j]}, dst) == {};
          forall j | k + 1 < j < |list| && list[j] !in resSet
            ensures RecursiveWalk(friends, friends(list[j]), depth - 1, resSet + {list[j]}, dst) == {}
          {
            assert tail[j - 1] == list[j];
          }
          assert list[k + 1] == tail[k];
        } else {
          forall j | 0 < j < |list| && list[j] !in resSet
            ensures RecursiveWalk(friends, friends(list[j]), depth - 1, resSet + {list[j]}, dst) == {}
          {
            EmptyAnswerEmptyBranches(friends, tail, depth, resSet, dst, j - 1);
          }
        }
      }
    }
  }

  lemma {:induction false} EmptyAnswerEmptyBranches(friends: Graph, list: seq<User>, depth: int, resSet: set<User>,
                                                    dst: User, j: nat)
    requires 0 < depth && j < |list| && list[j] !in resSet
    requires RecursiveWalk(friends, list, depth, resSet, dst) == {}
    ensures RecursiveWalk(friends, friends(list[j]), depth - 1, resSet + {list[j]}, dst) == {}
    decreases |list|
  {
    assert list[0] in resSet + {list[0]};
    if j > 0 {
      EmptyAnswerEmptyBranches(friends, list[1..], depth, resSet, dst, j - 1);
    }
  }

  // ------------------------------------------------------------------- seven hops

  /** Cutting loops: every chain contains a chain no longer, without repetitions before its end. */
  lemma {:induction false} CutLoops(friends: Graph, uid: User, did: User, hops: nat, w: seq<User>)
    returns (s: seq<User>)
    requires Chain(friends, uid, did, hops, w)
    ensures Chain(friends, uid, did, hops, s)
    ensures s == w || |s| < |w|
    ensures Distinct(s[..|s| - 1]) && Distinct(s[1..])
    decreases |w|
  {
    if i, j :| 0 <= i < j < |w| - 1 && w[i] == w[j] {
      var c := w[..i] + w[j..];
      forall k | 0 <= k < |c| - 1 ensures c[k + 1] in friends(c[k]) {
        var m := if k < i then k else k + j - i;
        assert w[m + 1] in friends(w[m]);
      }
      s := CutLoops(friends, uid, did, hops, c);
    } else if i :| 0 < i < |w| - 1 && w[i] == did {
      var c := w[..i + 1];
      assert Linked(friends, c);
      s := CutLoops(friends, uid, did, hops, c);
    } else {
      s := w;
      forall i, j | 0 <= i < j < |s[1..]| ensures s[1..][i] != s[1..][j] {
        assert w[i + 1] == s[1..][i] && w[j + 1] == s[1..][j];
      }
    }
  }

  /** A chain whose last hop, if it is the seventh, is visible. */
  ghost predicate VisibleChain(friends: Graph, uid: User, did: User, w: seq<User>) {
    Chain(friends, uid, did, 7, w) && (|w| == 8 ==> Visible(friends(w[6]), did))
  }

  /** A route from the user's friends, with the user in front, is such a chain. */
  lemma RouteIsChain(friends: Graph, uid: User, did: User, p: seq<User>)
    requires Route(friends, friends(uid), 6, {uid}, did, p)
    ensures VisibleChain(friends, uid, did, [uid] + p)
    ensures Vertices([uid] + p) == {uid} + Vertices(p)
  {
    var w := [uid] + p;
    assert Vertices(w) == {uid} + Vertices(p) by {
      assert forall v :: v in w <==> v == uid || v in p;
    }
    forall k | 0 <= k < |w| - 1 ensures w[k + 1] in friends(w[k]) {
      if k > 0 {
        assert p[k - 1 + 1] in friends(p[k - 1]);
      }
    }
  }

  /** Such a chain, without repetitions before its end, is a route from the user's friends. */
  lemma ChainIsRoute(friends: Graph, uid: User, did: User, w: seq<User>)
    requires VisibleChain(friends, uid, did, w) && Distinct(w[..|w| - 1]) && Distinct(w[1..])
    ensures Route(friends, friends(uid), 6, {uid}, did, w[1..])
  {
    var p := w[1..];
    forall k | 0 <= k < |p| - 1 ensures p[k + 1] in friends(p[k]) && p[k] !in {uid} {
      assert w[k + 1 + 1] in friends(w[k + 1]);
      assert w[..|w| - 1][0] != w[..|w| - 1][k + 1];
    }
    assert w[0 + 1] in friends(w[0]);
  }

  lemma AnswerIsChain(friends: Graph, uid: User, did: User) returns (w: seq<User>)
    requires ConnectVk(friends, uid, did) != {}
    ensures VisibleChain(friends, uid, did, w)
    ensures ConnectVk(friends, uid, did) == Vertices(w)
  {
    var p := WalkYieldsRoute(friends, friends(uid), 6, {uid}, did);
    RouteIsChain(friends, uid, did, p);
    w := [uid] + p;
  }

  lemma VisibleChainIsFound(friends: Graph, uid: User, did: User, w: seq<User>)
    requires VisibleChain(friends, uid, did, w)
    ensures ConnectVk(friends, uid, did) != {}
  {
    var s := CutLoops(friends, uid, did, 7, w);
    ChainIsRoute(friends, uid, did, s);
    RouteIsFound(friends, friends(uid), 6, {uid}, did, s[1..]);
  }

  /** For every graph: connectvk answers exactly when some chain of at most seven hops exists whose end,
      if it takes all seven, is visible in the last list; and its answer is the vertices of such a chain. */
  lemma ConnectDecidesVisibleChains(friends: Graph, uid: User, did: User)
    ensures ConnectVk(friends, uid, did) != {} <==> exists w :: VisibleChain(friends, uid, did, w)
    ensures ConnectVk(friends, uid, did) != {} ==>
            exists w :: VisibleChain(friends, uid, did, w) && ConnectVk(friends, uid, did) == Vertices(w)
  {
    if ConnectVk(friends, uid, did) != {} {
      var _ := AnswerIsChain(friends, uid, did);
    }
    if w :| VisibleChain(friends, uid, did, w) {
      VisibleChainIsFound(friends, uid, did, w);
    }
  }

  /** With the sorted lists the service returns: an answer exactly when did is one to seven hops away. */
  lemma ConnectDecidesSevenHops(friends: Graph, uid: User, did: User)
    requires SortedGraph(friends)
    ensures ConnectVk(friends, uid, did) != {} <==> exists w :: Chain(friends, uid, did, 7, w)
  {
    ConnectDecidesVisibleChains(friends, uid, did);
    if w :| Chain(friends, uid, did, 7, w) {
      var u := w[|w| - 2];
      assert w[|w| - 2 + 1] in friends(u);
      assert Sorted(friends(u));
      SortedListsShowAll(friends(u), did);
      assert VisibleChain(friends, uid, did, w);
    }
  }

  /** A ladder 0 -> 1 -> ... -> 6 -> 8 whose last list is not sorted. */
  function Ladder(u: User): seq<User> {
    if u == 6 then [9, 8] else if 0 <= u < 6 then [u + 1] else []
  }

  /** Sortedness is needed: on an unsorted last list connectvk misses a friend seven hops away. */
  lemma UnsortedListHidesFriend()
    ensures Chain(Ladder, 0, 8, 7, [0, 1, 2, 3, 4, 5, 6, 8])
    ensures ConnectVk(Ladder, 0, 8) == {}
  {
    LadderSearchFails(0, {0});
  }

  lemma {:induction false} LadderSearchFails(u: User, resSet: set<User>)
    requires 0 <= u <= 6
    ensures RecursiveWalk(Ladder, Ladder(u), 6 - u, resSet, 8) == {}
    decreases 6 - u
  {
    if u < 6 {
      assert Ladder(u)[1..] == [];
      LadderSearchFails(u + 1, resSet + {u + 1});
    }
  }
}
