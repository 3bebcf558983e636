/**
 * pl.zb3.freej2me.bridge.media.PlayerResourceManager: the players kept
 * reachable while they play, a LinkedHashSet held as a sequence without
 * repeats in insertion order. Players are compared by identity.
 */
module PlayerResourceManager {
  type Player = nat

  predicate NoRepeats(s: seq<Player>)
  {
    forall i, j :: 0 <= i < j < |s| ==> s[i] != s[j]
  }

  /** The set without `p`, the others in their order. */
  function Without(s: seq<Player>, p: Player): (r: seq<Player>)
    ensures forall q :: q in r <==> q in s && q != p
    ensures NoRepeats(s) ==> NoRepeats(r)
    ensures p !in s ==> r == s
  {
    if s == [] then []
    else if s[0] == p then Without(s[1..], p)
    else
      var rest := Without(s[1..], p);
      assert NoRepeats(s) ==> NoRepeats(s[1..]) by {
        if NoRepeats(s) {
          forall a, b | 0 <= a < b < |s[1..]|
            ensures s[1..][a] != s[1..][b]
          {
            assert s[1..][a] == s[a + 1] && s[1..][b] == s[b + 1];
          }
        }
      }
      assert NoRepeats(s) ==> s[0] !in rest;
      [s[0]] + rest
  }

  class Manager {
    var playing: seq<Player>

    ghost predicate Valid()
      reads this
    {
      NoRepeats(playing)
    }

    constructor ()
      ensures Valid() && playing == []
    {
      playing := [];
    }

    /** markPlayerPlaying: add at the end unless already there. */
    method MarkPlayerPlaying(p: Player)
      requires Valid()
      modifies this
      ensures Valid()
      ensures playing == if p in old(playing) then old(playing) else old(playing) + [p]
      ensures p in playing && forall q :: q != p ==> (q in playing <==> q in old(playing))
    {
      if p !in playing {
        playing := playing + [p];
      }
    }

    /** markPlayerNotPlaying: remove if present. */
    method MarkPlayerNotPlaying(p: Player)
      requires Valid()
      modifies this
      ensures Valid()
      ensures playing == Without(old(playing), p)
      ensures p !in playing && forall q :: q != p ==> (q in playing <==> q in old(playing))
    {
      playing := Without(playing, p);
    }
  }

  /** Adding twice is adding once, and removing twice is removing once. */
  lemma MarksIdempotent(s: seq<Player>, p: Player)
    ensures var added := if p in s then s else s + [p];
            (if p in added then added else added + [p]) == added
    ensures Without(Without(s, p), p) == Without(s, p)
  {
  }

  /** Where the player at index `k` of `s` stands once `p` is removed: the players before it that stay. */
  function Pos(s: seq<Player>, p: Player, k: nat): nat
    requires k < |s| && s[k] != p
  {
    if k == 0 then 0 else (if s[0] == p then 0 else 1) + Pos(s[1..], p, k - 1)
  }

  /** Every remaining player is found at its position in the set without `p`. */
  lemma {:induction false} PosIndexes(s: seq<Player>, p: Player, k: nat)
    requires k < |s| && s[k] != p
    ensures Pos(s, p, k) < |Without(s, p)| && Without(s, p)[Pos(s, p, k)] == s[k]
  {
    var t := s[1..];
    if s[0] != p {
      assert Without(s, p) == [s[0]] + Without(t, p);
    }
    if k > 0 {
      assert t[k - 1] == s[k];
      PosIndexes(t, p, k - 1);
    }
  }

  /** Removing keeps the relative order of the remaining players: an earlier one stays earlier. */
  lemma {:induction false} WithoutKeepsOrder(s: seq<Player>, p: Player, i: nat, j: nat)
    requires i < j < |s| && s[i] != p && s[j] != p
    ensures Pos(s, p, i) < Pos(s, p, j) < |Without(s, p)|
    ensures Without(s, p)[Pos(s, p, i)] == s[i] && Without(s, p)[Pos(s, p, j)] == s[j]
  {
    PosIndexes(s, p, i);
    PosIndexes(s, p, j);
    PosIncreasing(s, p, i, j);
  }

  /** Positions after the removal grow with positions before it. */
  lemma {:induction false} PosIncreasing(s: seq<Player>, p: Player, i: nat, j: nat)
    requires i < j < |s| && s[i] != p && s[j] != p
    ensures Pos(s, p, i) < Pos(s, p, j)
  {
    var t := s[1..];
    assert t[j - 1] == s[j];
    if i > 0 {
      assert t[i - 1] == s[i];
      PosIncreasing(t, p, i - 1, j - 1);
    }
  }
}
