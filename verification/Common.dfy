/** Types and facts shared by the other modules. */
module Common {
  datatype Option<+T> = None | Some(value: T)

  datatype Result<+T, +E> = Ok(value: T) | Err(error: E)

  /** A sequence that never goes down from one element to the next never goes down at all. */
  lemma {:induction false} Ascending(values: seq<nat>, i: nat, j: nat)
    requires i <= j < |values| && forall k | 0 < k < |values| :: values[k - 1] <= values[k]
    ensures values[i] <= values[j]
  {
    if i == j {
    } else {
      Ascending(values, i, j - 1);
    }
  }

  /** A log that grows by at most one entry at a time keeps its entries. */
  ghost predicate Grows<T>(logs: seq<seq<T>>, m: nat, n: nat)
    requires n < |logs|
  {
    forall k | m <= k < n :: logs[k] <= logs[k + 1] && |logs[k + 1]| <= |logs[k]| + 1
  }

  lemma {:induction false} LogKeeps<T>(logs: seq<seq<T>>, m: nat, n: nat)
    requires m <= n < |logs| && Grows(logs, m, n)
    ensures logs[m] <= logs[n]
  {
    if m == n {
    } else {
      LogKeeps(logs, m, n - 1);
    }
  }

  /** And each new entry came at one moment. */
  lemma {:induction false} EntryOrigin<T>(logs: seq<seq<T>>, m: nat, n: nat, i: nat) returns (k: nat)
    requires m <= n < |logs| && Grows(logs, m, n) && |logs[m]| <= i < |logs[n]|
    ensures m <= k < n && |logs[k]| == i && |logs[k + 1]| == i + 1 && logs[k + 1][i] == logs[n][i]
  {
    if i < |logs[n - 1]| {
      k := EntryOrigin(logs, m, n - 1, i);
    } else {
      k := n - 1;
    }
  }
}
