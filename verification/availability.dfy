/**
 * The free seats of one leg: the seat map minus the labels held by that
 * leg's tickets, in seat-map order (the list comprehension in `purchase`
 * and in `load_flight_and_available`).
 */
module Availability {
  import opened Records

  /** The set of seat labels held by tickets on `leg`. */
  function OccupiedSeats(tickets: seq<Ticket>, leg: Leg): (occupied: set<string>)
    ensures forall s :: s in occupied <==> Taken(tickets, leg, s)
  {
    set i | 0 <= i < |tickets| && tickets[i].leg == leg :: tickets[i].seat
  }

  /** The labels of `all` that are not in `occupied`, keeping their order. */
  function Available(all: seq<string>, occupied: set<string>): (free: seq<string>)
    ensures |free| <= |all|
    ensures forall s :: s in free <==> s in all && s !in occupied
  {
    if all == [] then []
    else (if all[0] in occupied then [] else [all[0]]) + Available(all[1..], occupied)
  }

  /** `sub` is `whole` with some elements dropped and the rest in order. */
  predicate IsSubsequence<T(==)>(sub: seq<T>, whole: seq<T>)
    decreases |whole|
  {
    if sub == [] then true
    else if whole == [] then false
    else if sub[0] == whole[0] then IsSubsequence(sub[1..], whole[1..])
    else IsSubsequence(sub, whole[1..])
  }

  predicate NoDuplicates<T(==)>(s: seq<T>)
  {
    forall a, b :: 0 <= a < b < |s| ==> s[a] != s[b]
  }

  /** The free seats keep the order of the seat map. */
  lemma {:induction false} AvailableIsSubsequence(all: seq<string>, occupied: set<string>)
    ensures IsSubsequence(Available(all, occupied), all)
    decreases |all|
  {
    if all != [] {
      AvailableIsSubsequence(all[1..], occupied);
      var rest := Available(all[1..], occupied);
      if all[0] in occupied {
        assert Available(all, occupied) == rest;
        SubsequenceOfTail(rest, all);
      } else {
        assert Available(all, occupied) == [all[0]] + rest;
        assert ([all[0]] + rest)[1..] == rest;
      }
    }
  }

  lemma {:induction false} SubsequenceOfTail<T>(sub: seq<T>, whole: seq<T>)
    requires whole != [] && IsSubsequence(sub, whole[1..])
    ensures IsSubsequence(sub, whole)
    decreases |whole|, |sub|
  {
    if sub != [] && sub[0] == whole[0] {
      // whole[0] is matched now; sub[1..] must still fit into whole[1..]
      SubsequenceDropHead(sub, whole[1..]);
    }
  }

  lemma {:induction false} SubsequenceDropHead<T>(sub: seq<T>, whole: seq<T>)
    requires sub != [] && IsSubsequence(sub, whole)
    ensures IsSubsequence(sub[1..], whole)
    decreases |whole|, |sub|
  {
    if sub[0] != whole[0] {
      SubsequenceDropHead(sub, whole[1..]);
      if sub[1..] != [] {
        SubsequenceOfTail(sub[1..], whole);
      }
    } else if sub[1..] != [] {
      SubsequenceOfTail(sub[1..], whole);
    }
  }

  /** A map without repeated labels gives a free list without repeated labels. */
  lemma {:induction false} AvailableNoDuplicates(all: seq<string>, occupied: set<string>)
    requires NoDuplicates(all)
    ensures NoDuplicates(Available(all, occupied))
    decreases |all|
  {
    if all != [] {
      assert NoDuplicates(all[1..]) by {
        forall a, b | 0 <= a < b < |all[1..]| ensures all[1..][a] != all[1..][b] {
          assert all[1..][a] == all[a + 1] && all[1..][b] == all[b + 1];
        }
      }
      AvailableNoDuplicates(all[1..], occupied);
      var rest := Available(all[1..], occupied);
      if all[0] !in occupied {
        assert all[0] !in all[1..] by {
          forall k | 0 <= k < |all[1..]| ensures all[1..][k] != all[0] {
            assert all[1..][k] == all[k + 1];
          }
        }
        assert all[0] !in rest;
        var free := [all[0]] + rest;
        assert Available(all, occupied) == free;
        forall a, b | 0 <= a < b < |free| ensures free[a] != free[b] {
          if a == 0 {
            assert free[b] == rest[b - 1];
          } else {
            assert free[a] == rest[a - 1] && free[b] == rest[b - 1];
          }
        }
      }
    }
  }
}
