/** Log entries as pkg/raft/types.go declares them, shared by the consensus core,
    the write-ahead log and the RPC codec. */
module LogTypes {

  newtype byte = b: int | 0 <= b < 256

  predicate Uint64(n: int) {
    0 <= n < 0x1_0000_0000_0000_0000
  }

  predicate Int64(n: int) {
    -0x8000_0000_0000_0000 <= n < 0x8000_0000_0000_0000
  }

  datatype Option<+T> = None | Some(value: T) {
    predicate IsFailure() {
      None?
    }

    function PropagateFailure<U>(): Option<U>
      requires None?
    {
      None
    }

    function Extract(): T
      requires Some?
    {
      value
    }
  }

  /** EntryNormal, EntryConfiguration and EntrySnapshot are 0, 1 and 2. */
  const ENTRY_NORMAL: byte := 0

  datatype LogEntry = LogEntry(term: nat, index: nat, kind: byte, data: seq<byte>)

  /** A log holds the entry of log index i at position i - 1. */
  type Log = seq<LogEntry>

  function LastTerm(log: Log): nat {
    if log == [] then 0 else log[|log| - 1].term
  }

  /** Entries numbered consecutively, the first one with log index `first`. */
  ghost predicate Numbered(log: Log, first: nat) {
    forall i :: 0 <= i < |log| ==> log[i].index == first + i
  }

  lemma SubsetSize<T>(a: set<T>, b: set<T>)
    requires a <= b
    ensures |a| <= |b|
  {
    assert b == a + (b - a);
    assert |a + (b - a)| == |a| + |b - a|;
  }
}
