/** The top-traders leaderboard: at most 100 (account, PnL) entries, one per account, ordered
    from the highest PnL to the lowest. `update_top_traders` places an account's current PnL
    on the board and then restores the order with a bubble sort. */
module Leaderboard {
  import opened Numeric
  import opened Types

  /** The most entries the board holds. */
  const BOARD_CAPACITY: nat := 100

  /** Entries are ordered by PnL, highest first. */
  predicate SortedByPnl(board: seq<Entry>)
  {
    forall i, j :: 0 <= i < j < |board| ==> board[i].1 >= board[j].1
  }

  /** No account has two entries. */
  predicate DistinctTraders(board: seq<Entry>)
  {
    forall i, j :: 0 <= i < j < |board| ==> board[i].0 != board[j].0
  }

  /** The shape the leaderboard keeps between calls. */
  predicate BoardValid(board: seq<Entry>)
  {
    |board| <= BOARD_CAPACITY && SortedByPnl(board) && DistinctTraders(board)
  }

  /** The index of the first entry of `user`, if any. */
  function TraderIndex(board: seq<Entry>, user: Address): (r: Option<nat>)
    ensures r.Some? ==> r.value < |board| && board[r.value].0 == user
  {
    if |board| == 0 then None
    else if board[0].0 == user then Some(0)
    else
      match TraderIndex(board[1..], user)
      case None => None
      case Some(i) => Some(i + 1)
  }

  /** No entry before the one found belongs to `user`, and there is none exactly when no entry
      belongs to `user`. */
  lemma {:induction false} TraderIndexIsFirstEntry(board: seq<Entry>, user: Address)
    ensures var r := TraderIndex(board, user);
            && (r.Some? ==> forall k :: 0 <= k < r.value ==> board[k].0 != user)
            && (r.None? <==> forall k :: 0 <= k < |board| ==> board[k].0 != user)
  {
    if |board| > 0 && board[0].0 != user {
      TraderIndexIsFirstEntry(board[1..], user);
      assert forall k :: 1 <= k < |board| ==> board[k] == board[1..][k - 1];
    }
  }

  /** The scan of `update_top_traders` for the user's existing entry. */
  method FindTrader(board: seq<Entry>, user: Address) returns (found: Option<nat>)
    ensures found == TraderIndex(board, user)
  {
    TraderIndexIsFirstEntry(board, user);
    var i := 0;
    while i < |board|
      invariant 0 <= i <= |board|
      invariant forall k :: 0 <= k < i ==> board[k].0 != user
    {
      if board[i].0 == user {
        return Some(i);
      }
      i := i + 1;
    }
    return None;
  }

  /** The board after placing `user` with `pnl`, before sorting: an existing entry of the user
      is overwritten; otherwise the entry is appended while there is room; otherwise it replaces
      the last (lowest) entry, but only when its PnL is strictly higher. */
  function Placed(board: seq<Entry>, user: Address, pnl: i128): seq<Entry>
  {
    match TraderIndex(board, user)
    case Some(i) => board[i := (user, pnl)]
    case None =>
      if |board| < BOARD_CAPACITY then board + [(user, pnl)]
      else if pnl > board[BOARD_CAPACITY - 1].1 then board[BOARD_CAPACITY - 1 := (user, pnl)]
      else board
  }

  /** Placing keeps at most 100 entries with one per account; the user's entry is on the board
      afterwards exactly when the user was already on it, there was room, or the new PnL beats
      the lowest entry; nothing else is invented, and every other account keeps its entry
      unless it was the lowest one and got displaced. */
  lemma PlacedKeepsBoardShape(board: seq<Entry>, user: Address, pnl: i128)
    requires BoardValid(board)
    ensures var r := Placed(board, user, pnl);
            && |r| <= BOARD_CAPACITY && DistinctTraders(r)
            && ((user, pnl) in r <==>
                  TraderIndex(board, user).Some? || |board| < BOARD_CAPACITY || pnl > board[BOARD_CAPACITY - 1].1)
            && (forall e :: e in r ==> e == (user, pnl) || e in board)
            && (forall k :: 0 <= k < |board| && board[k].0 != user ==>
                  board[k] in r || (k == BOARD_CAPACITY - 1 && pnl > board[k].1))
  {
    var r := Placed(board, user, pnl);
    TraderIndexIsFirstEntry(board, user);
    match TraderIndex(board, user)
    case Some(i) =>
      assert r[i] == (user, pnl);
      assert forall k :: 0 <= k < |board| && k != i ==> r[k] == board[k];
    case None =>
      if |board| >= BOARD_CAPACITY && pnl > board[BOARD_CAPACITY - 1].1 {
        assert r[BOARD_CAPACITY - 1] == (user, pnl);
        assert forall k :: 0 <= k < BOARD_CAPACITY - 1 ==> r[k] == board[k];
      }
  }

  /** The board with the neighbours at j and j + 1 exchanged: the same entries, and the
      accounts stay distinct. */
  function SwapNeighbours(board: seq<Entry>, j: nat): (r: seq<Entry>)
    requires j + 1 < |board|
    ensures |r| == |board| && r[j] == board[j + 1] && r[j + 1] == board[j]
    ensures forall k :: 0 <= k < |board| && k != j && k != j + 1 ==> r[k] == board[k]
    ensures multiset(r) == multiset(board)
    ensures DistinctTraders(board) ==> DistinctTraders(r)
  {
    var r := board[j := board[j + 1]][j + 1 := board[j]];
    assert DistinctTraders(board) ==> DistinctTraders(r) by {
      if DistinctTraders(board) {
        forall a, b | 0 <= a < b < |r|
          ensures r[a].0 != r[b].0
        {
          var a' := if a == j then j + 1 else if a == j + 1 then j else a;
          var b' := if b == j then j + 1 else if b == j + 1 then j else b;
          assert r[a] == board[a'] && r[b] == board[b'] && a' != b';
        }
      }
    }
    r
  }

  /** Every entry before position `m` has at least the PnL of every entry from `m` on. */
  ghost predicate Separated(board: seq<Entry>, m: nat)
    requires m <= |board|
  {
    forall a, b :: 0 <= a < m <= b < |board| ==> board[a].1 >= board[b].1
  }

  /** What holds after the first `j` compare-and-swap steps of a pass over the first `m`
      entries of `entries`: the same entries, the tail untouched, the prefix still separated
      from the tail, and the lowest PnL of positions 0..j carried along to position j. */
  ghost predicate PassInvariant(t: seq<Entry>, entries: seq<Entry>, m: nat, j: nat)
  {
    && |t| == |entries| && j < m <= |t|
    && multiset(t) == multiset(entries)
    && (forall k :: m <= k < |t| ==> t[k] == entries[k])
    && Separated(t, m)
    && (forall a :: 0 <= a < j ==> t[a].1 >= t[j].1)
    && (DistinctTraders(entries) ==> DistinctTraders(t))
  }

  /** The compare-and-swap step of the bubble sort at j: the neighbours are exchanged when the
      first has the lower PnL. */
  function CompareSwap(t: seq<Entry>, j: nat): (r: seq<Entry>)
    requires j + 1 < |t|
    ensures |r| == |t| && multiset(r) == multiset(t)
    ensures forall k :: 0 <= k < |t| && k != j && k != j + 1 ==> r[k] == t[k]
    ensures DistinctTraders(t) ==> DistinctTraders(r)
  {
    if t[j].1 < t[j + 1].1 then SwapNeighbours(t, j) else t
  }

  /** The step only reorders positions j and j + 1, so a prefix boundary beyond them stays a
      boundary. */
  lemma CompareSwapKeepsSeparated(t: seq<Entry>, m: nat, j: nat)
    requires j + 1 < m <= |t| && Separated(t, m)
    ensures Separated(CompareSwap(t, j), m)
  {
    var r := CompareSwap(t, j);
    forall a, b | 0 <= a < m <= b < |r|
      ensures r[a].1 >= r[b].1
    {
      assert r[b] == t[b];
      assert r[a] == t[a] || r[a] == t[j] || r[a] == t[j + 1];
    }
  }

  /** The step carries the lowest PnL seen so far from position j to position j + 1. */
  lemma CompareSwapCarriesLowest(t: seq<Entry>, j: nat)
    requires j + 1 < |t|
    requires forall a :: 0 <= a < j ==> t[a].1 >= t[j].1
    ensures forall a :: 0 <= a < j + 1 ==> CompareSwap(t, j)[a].1 >= CompareSwap(t, j)[j + 1].1
  {
    var r := CompareSwap(t, j);
    forall a | 0 <= a < j + 1
      ensures r[a].1 >= r[j + 1].1
    {
      if a < j {
        assert r[a] == t[a];
      }
    }
  }

  /** One compare-and-swap step at j keeps the pass invariant, advancing it to j + 1. */
  lemma PassStep(t: seq<Entry>, entries: seq<Entry>, m: nat, j: nat)
    requires PassInvariant(t, entries, m, j) && j + 1 < m
    ensures PassInvariant(CompareSwap(t, j), entries, m, j + 1)
  {
    CompareSwapKeepsSeparated(t, m, j);
    CompareSwapCarriesLowest(t, j);
  }

  /** One pass of the bubble sort over the first `m` entries: afterwards the lowest PnL of
      that prefix sits at position m - 1, and the entries from `m` on are untouched. */
  method BubblePass(entries: seq<Entry>, m: nat) returns (t: seq<Entry>)
    requires 1 <= m <= |entries| && Separated(entries, m)
    ensures |t| == |entries| && multiset(t) == multiset(entries)
    ensures forall k :: m <= k < |t| ==> t[k] == entries[k]
    ensures forall a :: 0 <= a < m ==> t[a].1 >= t[m - 1].1
    ensures Separated(t, m)
    ensures DistinctTraders(entries) ==> DistinctTraders(t)
  {
    t := entries;
    for j := 0 to m - 1
      invariant PassInvariant(t, entries, m, j)
    {
      PassStep(t, entries, m, j);
      if t[j].1 < t[j + 1].1 {
        t := SwapNeighbours(t, j);
      }
    }
  }

  /** `sort_top_traders`: a bubble sort that swaps neighbours whenever the first has the lower
      PnL, leaving the board ordered highest first, as a permutation of its input. */
  method SortByPnl(entries: seq<Entry>) returns (sorted: seq<Entry>)
    ensures SortedByPnl(sorted)
    ensures |sorted| == |entries| && multiset(sorted) == multiset(entries)
    ensures DistinctTraders(entries) ==> DistinctTraders(sorted)
  {
    var t := entries;
    var n := |t|;
    for i := 0 to n
      invariant |t| == n
      invariant multiset(t) == multiset(entries)
      invariant DistinctTraders(entries) ==> DistinctTraders(t)
      invariant forall a, b :: n - i <= a < b < n ==> t[a].1 >= t[b].1
      invariant forall a, b :: 0 <= a < n - i <= b < n ==> t[a].1 >= t[b].1
    {
      ghost var before := t;
      t := BubblePass(t, n - i);
      assert forall a, b :: n - i <= a < b < n ==> t[a] == before[a] && t[b] == before[b];
    }
    sorted := t;
  }

  /** `r` holds exactly the entries of `board` after placing `user` with `pnl`, in some order. */
  ghost predicate HoldsPlaced(r: seq<Entry>, board: seq<Entry>, user: Address, pnl: i128)
  {
    multiset(r) == multiset(Placed(board, user, pnl))
  }

  /** `update_top_traders`: places the account's current PnL on the board (see `Placed`) and
      sorts the board highest first; it stays at most 100 entries with one per account. */
  method UpdateBoard(board: seq<Entry>, user: Address, pnl: i128) returns (r: seq<Entry>)
    requires BoardValid(board)
    ensures BoardValid(r)
    ensures HoldsPlaced(r, board, user, pnl)
  {
    var placed := board;
    var found := FindTrader(board, user);
    if found.Some? {
      placed := placed[found.value := (user, pnl)];
    } else if |placed| < BOARD_CAPACITY {
      placed := placed + [(user, pnl)];
    } else if pnl > placed[BOARD_CAPACITY - 1].1 {
      placed := placed[BOARD_CAPACITY - 1 := (user, pnl)];
    }
    assert placed == Placed(board, user, pnl);
    PlacedKeepsBoardShape(board, user, pnl);
    r := SortByPnl(placed);
  }
}
